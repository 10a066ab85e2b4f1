/** The buffer cache of kernel/bio.c.

    Buffers are numbered 0 .. NBUF-1 and the list head is NBUF; `next` and `prev` are the link
    fields.  The ghost `stamp` of a buffer is the time of its last release to zero references
    (its position in binit() before the first).  A ghost token stands for every reference: one
    for each bread() in progress and one for each bpin(). */
module Bio {
  import opened Counting
  import opened Params

  const HEAD: nat := NBUF

  type Block = seq<int>
  datatype Key = Key(dev: nat, blockno: nat)

  // ---------------------------------------------------------------- the linked list

  datatype Links = Links(next: seq<nat>, prev: seq<nat>)

  predicate Sized(l: Links) { |l.next| == NBUF + 1 && |l.prev| == NBUF + 1 }

  /** x comes after a on the list: everything is after the head, else older stamps are. */
  predicate After(stamp: seq<nat>, a: nat, x: nat)
    requires |stamp| == NBUF && a <= NBUF && x < NBUF
  {
    a == HEAD || stamp[x] < stamp[a]
  }

  /** m is the first of the members of s after a, or the head if there is none. */
  predicate FirstAfter(s: set<nat>, stamp: seq<nat>, a: nat, m: nat)
    requires |stamp| == NBUF && a <= NBUF && Members(s)
  {
    if m == HEAD then forall x :: x in s ==> !After(stamp, a, x)
    else m in s && After(stamp, a, m) && forall x :: x in s && After(stamp, a, x) ==> stamp[x] <= stamp[m]
  }

  predicate Members(s: set<nat>) { forall x :: x in s ==> x < NBUF }

  predicate On(s: set<nat>, a: nat) { a == HEAD || a in s }

  /** Node a is properly linked in both directions. */
  predicate NodeOk(s: set<nat>, l: Links, stamp: seq<nat>, a: nat)
    requires Sized(l) && |stamp| == NBUF && Members(s) && a <= NBUF
  {
    && On(s, l.next[a]) && On(s, l.prev[a])
    && l.next[a] <= NBUF && l.prev[l.next[a]] == a
    && l.prev[a] <= NBUF && l.next[l.prev[a]] == a
    && FirstAfter(s, stamp, a, l.next[a])
  }

  predicate Distinct(s: set<nat>, stamp: seq<nat>)
    requires |stamp| == NBUF && Members(s)
  {
    forall x, y :: x in s && y in s && x != y ==> stamp[x] != stamp[y]
  }

  /** The list holds exactly the buffers in s, most recently released first. */
  ghost predicate ListOk(s: set<nat>, l: Links, stamp: seq<nat>) {
    && Sized(l) && |stamp| == NBUF && Members(s) && Distinct(s, stamp)
    && forall a: nat :: a <= NBUF && On(s, a) ==> NodeOk(s, l, stamp, a)
  }

  function Unlink(l: Links, b: nat): Links
    requires Sized(l) && b <= NBUF && l.next[b] <= NBUF && l.prev[b] <= NBUF
  {
    l.(prev := l.prev[l.next[b] := l.prev[b]], next := l.next[l.prev[b] := l.next[b]])
  }

  lemma UnlinkNode(s: set<nat>, l: Links, stamp: seq<nat>, b: nat, a: nat)
    requires Sized(l) && |stamp| == NBUF && Members(s) && Distinct(s, stamp) && b in s && a <= NBUF && On(s, a)
    requires a != b
    requires NodeOk(s, l, stamp, a) && NodeOk(s, l, stamp, b)
    ensures NodeOk(s - {b}, Unlink(l, b), stamp, a)
  {
  }

  lemma UnlinkOk(s: set<nat>, l: Links, stamp: seq<nat>, b: nat)
    requires ListOk(s, l, stamp) && b in s && l.next[b] <= NBUF && l.prev[b] <= NBUF
    ensures ListOk(s - {b}, Unlink(l, b), stamp)
  {
    hide NodeOk;
    forall a: nat | a <= NBUF && On(s - {b}, a) ensures NodeOk(s - {b}, Unlink(l, b), stamp, a) {
      UnlinkNode(s, l, stamp, b, a);
    }
  }

  /** Linking b in right behind the head. */
  function PushFront(l: Links, b: nat): Links
    requires Sized(l) && b < NBUF && l.next[HEAD] <= NBUF
  {
    var first := l.next[HEAD];
    Links(l.next[b := first][HEAD := b], l.prev[b := HEAD][first := b])
  }

  lemma PushNode(s: set<nat>, l: Links, stamp: seq<nat>, b: nat, t: nat, a: nat)
    requires Sized(l) && |stamp| == NBUF && Members(s) && b < NBUF && b !in s && a <= NBUF && On(s, a)
    requires NodeOk(s, l, stamp, a) && NodeOk(s, l, stamp, HEAD)
    requires forall x :: x in s ==> stamp[x] < t
    ensures NodeOk(s + {b}, PushFront(l, b), stamp[b := t], a) && NodeOk(s + {b}, PushFront(l, b), stamp[b := t], b)
  {
  }

  lemma PushOk(s: set<nat>, l: Links, stamp: seq<nat>, b: nat, t: nat)
    requires ListOk(s, l, stamp) && b < NBUF && b !in s && l.next[HEAD] <= NBUF
    requires forall x :: x in s ==> stamp[x] < t
    ensures ListOk(s + {b}, PushFront(l, b), stamp[b := t])
  {
    hide NodeOk;
    assert On(s, HEAD);
    forall a: nat | a <= NBUF && On(s + {b}, a) ensures NodeOk(s + {b}, PushFront(l, b), stamp[b := t], a) {
      PushNode(s, l, stamp, b, t, if a == b then HEAD else a);
    }
  }

  // ---------------------------------------------------------------- cache states

  /** Who refers to a buffer: a bread() in progress, or the pin of a block. */
  datatype Token = Reader(t: nat) | Pin(k: Key)

  datatype Lock = Open | Held(token: Token)

  datatype Cache = Cache(
    dev: seq<nat>, blockno: seq<nat>, refcnt: seq<nat>, valid: seq<bool>, data: seq<Block>, lock: seq<Lock>,
    links: Links, disk: map<Key, Block>, stamp: seq<nat>, clock: nat, uses: map<Token, nat>)

  function All(): (r: set<nat>)
    ensures forall x: nat :: x in r <==> x < NBUF
  {
    Below(NBUF)
  }

  predicate Full(c: Cache) {
    |c.dev| == |c.blockno| == |c.refcnt| == |c.valid| == |c.data| == |c.lock| == |c.stamp| == NBUF
  }

  function KeyOf(c: Cache, b: nat): Key
    requires Full(c) && b < NBUF
  {
    Key(c.dev[b], c.blockno[b])
  }

  function OnDisk(disk: map<Key, Block>, k: Key): Block { if k in disk then disk[k] else [] }

  /** Assigned buffers (device 0 is no device) have different keys. */
  ghost predicate UniqueKeys(c: Cache)
    requires Full(c)
  {
    forall b, d :: 0 <= b < d < NBUF && c.dev[b] != 0 ==> KeyOf(c, b) != KeyOf(c, d)
  }

  /** The reference count of a buffer is the number of its tokens; a locked buffer has one. */
  ghost predicate CountsOk(c: Cache)
    requires Full(c)
  {
    && (forall b :: 0 <= b < NBUF ==> c.refcnt[b] == Count(c.uses, b))
    && (forall t :: t in c.uses ==> c.uses[t] < NBUF)
    && (forall b :: 0 <= b < NBUF && c.lock[b].Held? ==> c.lock[b].token in c.uses && c.uses[c.lock[b].token] == b)
  }

  predicate CleanAt(c: Cache, b: nat)
    requires Full(c) && b < NBUF
  {
    c.dev[b] != 0 && c.valid[b] ==> c.data[b] == OnDisk(c.disk, KeyOf(c, b))
  }

  /** A buffer nobody refers to agrees with the disk, so recycling it loses nothing. */
  ghost predicate CleanOk(c: Cache)
    requires Full(c)
  {
    forall b :: 0 <= b < NBUF && c.refcnt[b] == 0 ==> CleanAt(c, b)
  }

  ghost predicate OrderOk(c: Cache)
    requires Full(c)
  {
    ListOk(All(), c.links, c.stamp) && forall b :: 0 <= b < NBUF ==> c.stamp[b] < c.clock
  }

  ghost predicate Inv(c: Cache) { Full(c) && UniqueKeys(c) && CountsOk(c) && CleanOk(c) && OrderOk(c) }

  // ---------------------------------------------------------------- what the cache stands for

  predicate Holds(c: Cache, b: nat, k: Key)
    requires Full(c)
  {
    b < NBUF && c.dev[b] != 0 && KeyOf(c, b) == k && c.valid[b]
  }

  /** The block store a client sees: the disk overlaid with the buffers that have been read. */
  ghost function Logical(c: Cache, k: Key): Block
    requires Full(c)
  {
    if exists b: nat :: Holds(c, b, k) then (var b: nat :| Holds(c, b, k); c.data[b]) else OnDisk(c.disk, k)
  }

  lemma LogicalAt(c: Cache, b: nat, k: Key)
    requires Full(c) && UniqueKeys(c) && Holds(c, b, k)
    ensures Logical(c, k) == c.data[b]
  {
    forall d: nat | Holds(c, d, k) ensures d == b {
    }
  }

  lemma LogicalMiss(c: Cache, k: Key)
    requires Full(c) && forall b: nat :: !Holds(c, b, k)
    ensures Logical(c, k) == OnDisk(c.disk, k)
  {
  }

  /** A client cannot tell d from c. */
  ghost predicate SameStore(c: Cache, d: Cache)
    requires Full(c) && Full(d)
  {
    forall k :: Logical(c, k) == Logical(d, k)
  }

  lemma SameHolds(c: Cache, d: Cache)
    requires Full(c) && Full(d) && UniqueKeys(c) && UniqueKeys(d) && c.disk == d.disk
    requires forall b: nat, k :: Holds(c, b, k) <==> Holds(d, b, k)
    requires forall b: nat, k :: Holds(c, b, k) ==> c.data[b] == d.data[b]
    ensures SameStore(c, d)
  {
    forall k ensures Logical(c, k) == Logical(d, k) {
      if b: nat :| Holds(c, b, k) {
        LogicalAt(c, b, k);
        LogicalAt(d, b, k);
      } else {
        LogicalMiss(c, k);
        LogicalMiss(d, k);
      }
    }
  }

  // ---------------------------------------------------------------- recycling

  /** bget() giving buffer b to key k. */
  function Recycle(c: Cache, b: nat, k: Key, t: Token): Cache
    requires Full(c) && b < NBUF
  {
    c.(dev := c.dev[b := k.dev], blockno := c.blockno[b := k.blockno], valid := c.valid[b := false],
       refcnt := c.refcnt[b := 1], uses := c.uses[t := b])
  }

  lemma RecycleCounts(c: Cache, b: nat, k: Key, t: Token)
    requires Full(c) && CountsOk(c) && b < NBUF && c.refcnt[b] == 0 && t !in c.uses
    ensures CountsOk(Recycle(c, b, k, t))
  {
    var d := Recycle(c, b, k, t);
    forall x | 0 <= x < NBUF ensures d.refcnt[x] == Count(d.uses, x) {
      CountAdd(c.uses, t, b, x);
    }
  }

  lemma RecycleInv(c: Cache, b: nat, k: Key, t: Token)
    requires Inv(c) && b < NBUF && c.refcnt[b] == 0 && t !in c.uses && k.dev != 0
    requires forall x :: 0 <= x < NBUF ==> KeyOf(c, x) != k
    ensures Inv(Recycle(c, b, k, t))
  {
    hide ListOk, CountsOk, Count;
    var d := Recycle(c, b, k, t);
    RecycleCounts(c, b, k, t);
    assert Full(d);
    forall x, y | 0 <= x < y < NBUF && d.dev[x] != 0 ensures KeyOf(d, x) != KeyOf(d, y) {
      assert x != b ==> KeyOf(d, x) == KeyOf(c, x);
      assert y != b ==> KeyOf(d, y) == KeyOf(c, y);
    }
  }

  lemma RecycleStore(c: Cache, b: nat, k: Key, t: Token)
    requires Inv(c) && b < NBUF && c.refcnt[b] == 0 && t !in c.uses && k.dev != 0 && Inv(Recycle(c, b, k, t))
    requires forall x :: 0 <= x < NBUF ==> KeyOf(c, x) != k
    ensures SameStore(c, Recycle(c, b, k, t))
  {
    hide ListOk, CountsOk, Count, Logical;
    var d := Recycle(c, b, k, t);
    forall j ensures Logical(c, j) == Logical(d, j) {
      if x: nat :| Holds(c, x, j) && x != b {
        assert Holds(d, x, j);
        LogicalAt(c, x, j);
        LogicalAt(d, x, j);
      } else {
        if Holds(c, b, j) { LogicalAt(c, b, j); } else { LogicalMiss(c, j); }
        forall y: nat ensures !Holds(d, y, j) {
          assert y != b ==> (Holds(d, y, j) <==> Holds(c, y, j));
        }
        LogicalMiss(d, j);
      }
    }
  }

  // ---------------------------------------------------------------- references

  function Ref(c: Cache, b: nat, t: Token): Cache
    requires Full(c) && b < NBUF
  {
    c.(refcnt := c.refcnt[b := c.refcnt[b] + 1], uses := c.uses[t := b])
  }

  lemma RefCounts(c: Cache, b: nat, t: Token)
    requires Full(c) && CountsOk(c) && b < NBUF && t !in c.uses
    ensures CountsOk(Ref(c, b, t))
  {
    var d := Ref(c, b, t);
    forall x | 0 <= x < NBUF ensures d.refcnt[x] == Count(d.uses, x) {
      CountAdd(c.uses, t, b, x);
    }
  }

  /** Changes that leave keys, contents and disk alone are invisible. */
  lemma SameFields(c: Cache, d: Cache)
    requires Full(c) && Full(d) && UniqueKeys(c) && UniqueKeys(d)
    requires d.dev == c.dev && d.blockno == c.blockno && d.valid == c.valid && d.data == c.data && d.disk == c.disk
    ensures SameStore(c, d)
  {
    SameHolds(c, d);
  }

  lemma SameKeys(c: Cache, d: Cache)
    requires Full(c) && Full(d) && UniqueKeys(c) && d.dev == c.dev && d.blockno == c.blockno
    ensures UniqueKeys(d)
  {
    forall x, y | 0 <= x < y < NBUF && d.dev[x] != 0 ensures KeyOf(d, x) != KeyOf(d, y) {
      assert KeyOf(d, x) == KeyOf(c, x) && KeyOf(d, y) == KeyOf(c, y);
    }
  }

  lemma RefInv(c: Cache, b: nat, t: Token)
    requires Inv(c) && b < NBUF && t !in c.uses
    ensures Inv(Ref(c, b, t)) && SameStore(c, Ref(c, b, t))
  {
    hide ListOk, CountsOk, Count, UniqueKeys, SameStore;
    var d := Ref(c, b, t);
    RefCounts(c, b, t);
    SameKeys(c, d);
    SameFields(c, d);
    CleanKeep(c, d);
  }

  lemma CleanKeep(c: Cache, d: Cache)
    requires Full(c) && Full(d) && CleanOk(c)
    requires d.dev == c.dev && d.blockno == c.blockno && d.valid == c.valid && d.data == c.data && d.disk == c.disk
    requires forall b :: 0 <= b < NBUF && d.refcnt[b] == 0 ==> c.refcnt[b] == 0 || CleanAt(c, b)
    ensures CleanOk(d)
  {
    forall b | 0 <= b < NBUF && d.refcnt[b] == 0 ensures CleanAt(d, b) {
      assert CleanAt(c, b);
    }
  }

  function Deref(c: Cache, t: Token): Cache
    requires Full(c) && t in c.uses && c.uses[t] < NBUF && c.refcnt[c.uses[t]] > 0
  {
    c.(refcnt := c.refcnt[c.uses[t] := c.refcnt[c.uses[t]] - 1], uses := c.uses - {t})
  }

  lemma DerefCounts(c: Cache, t: Token)
    requires Full(c) && CountsOk(c) && t in c.uses && forall b :: 0 <= b < NBUF ==> c.lock[b] != Held(t)
    ensures c.uses[t] < NBUF && c.refcnt[c.uses[t]] > 0 && CountsOk(Deref(c, t))
  {
    CountPositive(c.uses, t);
    var d := Deref(c, t);
    forall x | 0 <= x < NBUF ensures d.refcnt[x] == Count(d.uses, x) {
      CountDrop(c.uses, t, x);
    }
  }

  lemma DerefInv(c: Cache, t: Token)
    requires Inv(c) && t in c.uses && forall b :: 0 <= b < NBUF ==> c.lock[b] != Held(t)
    requires c.uses[t] < NBUF && (c.refcnt[c.uses[t]] == 1 ==> CleanAt(c, c.uses[t]))
    ensures c.refcnt[c.uses[t]] > 0 && Inv(Deref(c, t)) && SameStore(c, Deref(c, t))
  {
    hide ListOk, CountsOk, Count, UniqueKeys, SameStore;
    DerefCounts(c, t);
    var d := Deref(c, t);
    SameKeys(c, d);
    SameFields(c, d);
    CleanKeep(c, d);
  }

  /** brelse() of the last reference: to the front of the list, as most recently released. */
  function Refresh(c: Cache, b: nat): Cache
    requires Full(c) && b < NBUF && Sized(c.links) && c.links.next[b] <= NBUF && c.links.prev[b] <= NBUF
    requires Unlink(c.links, b).next[HEAD] <= NBUF
  {
    c.(links := PushFront(Unlink(c.links, b), b), stamp := c.stamp[b := c.clock], clock := c.clock + 1)
  }

  lemma RefreshInv(c: Cache, b: nat)
    requires Inv(c) && b < NBUF
    ensures Sized(c.links) && c.links.next[b] <= NBUF && c.links.prev[b] <= NBUF
    ensures Unlink(c.links, b).next[HEAD] <= NBUF
    ensures Inv(Refresh(c, b)) && SameStore(c, Refresh(c, b))
  {
    hide CountsOk, Count, UniqueKeys, SameStore, NodeOk;
    NodeBounds(All(), c.links, c.stamp, b);
    UnlinkOk(All(), c.links, c.stamp, b);
    assert On(All() - {b}, HEAD);
    NodeBounds(All() - {b}, Unlink(c.links, b), c.stamp, HEAD);
    PushOk(All() - {b}, Unlink(c.links, b), c.stamp, b, c.clock);
    assert All() - {b} + {b} == All();
    var d := Refresh(c, b);
    SameKeys(c, d);
    SameFields(c, d);
    CleanKeep(c, d);
    assert CountsOk(d) by { SameCounts(c, d); }
  }

  lemma NodeBounds(s: set<nat>, l: Links, stamp: seq<nat>, a: nat)
    requires ListOk(s, l, stamp) && a <= NBUF && On(s, a)
    ensures l.next[a] <= NBUF && l.prev[a] <= NBUF
  {
    assert NodeOk(s, l, stamp, a);
  }

  lemma SameCounts(c: Cache, d: Cache)
    requires Full(c) && Full(d) && CountsOk(c) && d.refcnt == c.refcnt && d.uses == c.uses && d.lock == c.lock
    ensures CountsOk(d)
  {
  }

  // ---------------------------------------------------------------- contents

  /** The first half of bread() on a buffer not read yet. */
  function FillIn(c: Cache, b: nat): Cache
    requires Full(c) && b < NBUF
  {
    c.(data := c.data[b := OnDisk(c.disk, KeyOf(c, b))], valid := c.valid[b := true])
  }

  lemma FillInv(c: Cache, b: nat)
    requires Inv(c) && b < NBUF && !c.valid[b]
    ensures Inv(FillIn(c, b)) && SameStore(c, FillIn(c, b))
  {
    hide ListOk, CountsOk, Count, UniqueKeys, Logical;
    var d := FillIn(c, b);
    SameKeys(c, d);
    SameCounts(c, d);
    forall x | 0 <= x < NBUF && d.refcnt[x] == 0 ensures CleanAt(d, x) {
      assert x != b ==> CleanAt(c, x);
    }
    forall k ensures Logical(c, k) == Logical(d, k) {
      FillKey(c, b, k);
    }
  }

  lemma FillKey(c: Cache, b: nat, k: Key)
    requires Full(c) && UniqueKeys(c) && b < NBUF && !c.valid[b] && UniqueKeys(FillIn(c, b))
    ensures Logical(c, k) == Logical(FillIn(c, b), k)
  {
    var d := FillIn(c, b);
    if x: nat :| Holds(c, x, k) {
      assert Holds(d, x, k);
      LogicalAt(c, x, k);
      LogicalAt(d, x, k);
    } else {
      LogicalMiss(c, k);
      if Holds(d, b, k) {
        LogicalAt(d, b, k);
      } else {
        forall y: nat ensures !Holds(d, y, k) {
          assert y != b ==> (Holds(d, y, k) <==> Holds(c, y, k));
        }
        LogicalMiss(d, k);
      }
    }
  }

  /** A client changing the data of a buffer it has locked. */
  function Changed(c: Cache, b: nat, bl: Block): Cache
    requires Full(c) && b < NBUF
  {
    c.(data := c.data[b := bl])
  }

  lemma ChangedInv(c: Cache, b: nat, bl: Block)
    requires Inv(c) && b < NBUF && c.refcnt[b] > 0 && c.dev[b] != 0 && c.valid[b]
    ensures Inv(Changed(c, b, bl))
    ensures forall k :: Logical(Changed(c, b, bl), k) == if k == KeyOf(c, b) then bl else Logical(c, k)
  {
    hide ListOk, CountsOk, Count, UniqueKeys, Logical;
    var d := Changed(c, b, bl);
    SameKeys(c, d);
    SameCounts(c, d);
    forall x | 0 <= x < NBUF && d.refcnt[x] == 0 ensures CleanAt(d, x) {
      assert CleanAt(c, x);
    }
    forall k ensures Logical(d, k) == if k == KeyOf(c, b) then bl else Logical(c, k) {
      ChangedKey(c, b, bl, k);
    }
  }

  lemma ChangedKey(c: Cache, b: nat, bl: Block, k: Key)
    requires Full(c) && UniqueKeys(c) && b < NBUF && c.dev[b] != 0 && c.valid[b] && UniqueKeys(Changed(c, b, bl))
    ensures Logical(Changed(c, b, bl), k) == if k == KeyOf(c, b) then bl else Logical(c, k)
  {
    var d := Changed(c, b, bl);
    if x: nat :| Holds(c, x, k) {
      assert Holds(d, x, k);
      LogicalAt(c, x, k);
      LogicalAt(d, x, k);
      assert k == KeyOf(c, b) ==> Holds(d, b, k);
      if k == KeyOf(c, b) { LogicalAt(d, b, k); }
    } else {
      assert !Holds(c, b, k);
      LogicalMiss(c, k);
      forall y: nat ensures !Holds(d, y, k) { assert !Holds(c, y, k); }
      LogicalMiss(d, k);
    }
  }

  /** bwrite(). */
  function Flushed(c: Cache, b: nat): Cache
    requires Full(c) && b < NBUF
  {
    c.(disk := c.disk[KeyOf(c, b) := c.data[b]])
  }

  lemma FlushedInv(c: Cache, b: nat)
    requires Inv(c) && b < NBUF && c.dev[b] != 0 && c.valid[b]
    ensures Inv(Flushed(c, b)) && SameStore(c, Flushed(c, b)) && CleanAt(Flushed(c, b), b)
  {
    hide ListOk, CountsOk, Count, Logical;
    var d := Flushed(c, b);
    SameKeys(c, d);
    SameCounts(c, d);
    forall x | 0 <= x < NBUF && d.refcnt[x] == 0 ensures CleanAt(d, x) {
      assert CleanAt(c, x);
      assert x != b && c.dev[x] != 0 ==> KeyOf(c, x) != KeyOf(c, b);
    }
    forall k ensures Logical(c, k) == Logical(d, k) {
      if x: nat :| Holds(c, x, k) {
        assert Holds(d, x, k);
        LogicalAt(c, x, k);
        LogicalAt(d, x, k);
      } else {
        assert !Holds(c, b, k);
        LogicalMiss(c, k);
        forall y: nat ensures !Holds(d, y, k) { assert !Holds(c, y, k); }
        LogicalMiss(d, k);
      }
    }
  }

  // ---------------------------------------------------------------- the list as a sequence

  /** Following next from a gives order, the last of which points back to the head. */
  predicate Follow(l: Links, a: nat, order: seq<nat>)
    requires Sized(l)
    decreases |order|
  {
    a <= NBUF && if order == [] then l.next[a] == HEAD else l.next[a] == order[0] && Follow(l, order[0], order[1..])
  }

  ghost function Rest(s: set<nat>, stamp: seq<nat>, a: nat): set<nat>
    requires |stamp| == NBUF && Members(s) && a <= NBUF
  {
    set x | x in s && After(stamp, a, x)
  }

  lemma NodeFacts(s: set<nat>, l: Links, stamp: seq<nat>, a: nat)
    requires ListOk(s, l, stamp) && a <= NBUF && On(s, a)
    ensures Sized(l) && |stamp| == NBUF && Members(s) && Distinct(s, stamp)
    ensures l.next[a] <= NBUF && On(s, l.next[a]) && FirstAfter(s, stamp, a, l.next[a])
  {
    assert NodeOk(s, l, stamp, a);
  }

  lemma RestStep(s: set<nat>, stamp: seq<nat>, a: nat, n: nat)
    requires |stamp| == NBUF && Members(s) && Distinct(s, stamp) && a <= NBUF && n <= NBUF && FirstAfter(s, stamp, a, n)
    ensures n == HEAD ==> Rest(s, stamp, a) == {}
    ensures n != HEAD ==> Rest(s, stamp, a) == Rest(s, stamp, n) + {n} && n !in Rest(s, stamp, n)
    ensures n != HEAD ==> forall x :: x in Rest(s, stamp, n) ==> x < NBUF && stamp[x] < stamp[n]
  {
  }

  lemma {:induction false} ListIsOrder(s: set<nat>, l: Links, stamp: seq<nat>, a: nat) returns (order: seq<nat>)
    requires ListOk(s, l, stamp) && a <= NBUF && On(s, a)
    ensures Follow(l, a, order)
    ensures (forall i :: 0 <= i < |order| ==> order[i] in Rest(s, stamp, a))
    ensures forall x :: x in Rest(s, stamp, a) ==> x in order
    ensures forall i, j :: 0 <= i < j < |order| ==>
            order[i] < NBUF && order[j] < NBUF && stamp[order[i]] > stamp[order[j]]
    decreases Rest(s, stamp, a)
  {
    hide ListOk, NodeOk, Rest, FirstAfter, Distinct;
    NodeFacts(s, l, stamp, a);
    var n := l.next[a];
    RestStep(s, stamp, a, n);
    if n == HEAD {
      order := [];
    } else {
      assert n in Rest(s, stamp, a);
      var tail := ListIsOrder(s, l, stamp, n);
      order := [n] + tail;
      assert order[1..] == tail;
    }
  }

  /** The list is a permutation of all buffers, the most recently released first. */
  lemma LruOrder(c: Cache) returns (order: seq<nat>)
    requires Inv(c)
    ensures Sized(c.links) && Follow(c.links, HEAD, order) && (forall b: nat :: b < NBUF <==> b in order)
    ensures |c.stamp| == NBUF
    ensures forall i, j :: 0 <= i < j < |order| ==>
            order[i] < NBUF && order[j] < NBUF && c.stamp[order[i]] > c.stamp[order[j]]
  {
    hide Below, ListOk, NodeOk, UniqueKeys, CountsOk, CleanOk;
    NodeFacts(All(), c.links, c.stamp, HEAD);
    order := ListIsOrder(All(), c.links, c.stamp, HEAD);
    forall b: nat | b < NBUF ensures b in order { assert b in Rest(All(), c.stamp, HEAD); }
  }

  /** Among the buffers without references, b was released first. */
  ghost predicate Oldest(c: Cache, b: nat)
    requires Full(c) && b < NBUF
  {
    c.refcnt[b] == 0 && forall x :: 0 <= x < NBUF && c.refcnt[x] == 0 ==> c.stamp[b] <= c.stamp[x]
  }

  /** bget() for key k and token t: a cached buffer gets one more reference, or else the longest
      unused one is recycled. */
  ghost predicate Bgot(c: Cache, d: Cache, b: nat, k: Key, t: Token)
    requires Full(c)
  {
    && b < NBUF
    && if KeyOf(c, b) == k then d == Ref(c, b, t)
       else Oldest(c, b) && (forall x :: 0 <= x < NBUF ==> KeyOf(c, x) != k) && d == Recycle(c, b, k, t)
  }

  lemma EmptyList(l: Links, stamp: seq<nat>)
    requires Sized(l) && |stamp| == NBUF && l.next[HEAD] == HEAD && l.prev[HEAD] == HEAD
    ensures ListOk(Below(0), l, stamp)
  {
  }

  lemma FreshCache(c: Cache)
    requires Full(c) && OrderOk(c) && c.uses == map[]
    requires forall b :: 0 <= b < NBUF ==> c.dev[b] == 0 && c.refcnt[b] == 0 && c.lock[b] == Open
    ensures Inv(c) && forall k :: Logical(c, k) == OnDisk(c.disk, k)
  {
    hide ListOk;
    forall b: nat ensures Count(c.uses, b) == 0 { assert Holders(c.uses, b) == {}; }
    forall k ensures Logical(c, k) == OnDisk(c.disk, k) { LogicalMiss(c, k); }
  }

  lemma PushNext(l: Links, stamp: seq<nat>, b: nat)
    requires ListOk(Below(b), l, stamp) && Sized(l) && b < NBUF && forall x :: 0 <= x < NBUF ==> stamp[x] == x
    ensures l.next[HEAD] <= NBUF && ListOk(Below(b + 1), PushFront(l, b), stamp)
  {
    assert On(Below(b), HEAD);
    NodeBounds(Below(b), l, stamp, HEAD);
    PushOk(Below(b), l, stamp, b, b);
    assert stamp[b := b] == stamp;
  }

  /** The node after a is the next older one: whatever is newer than it is a or newer than a. */
  lemma VisitNext(l: Links, stamp: seq<nat>, a: nat)
    requires ListOk(All(), l, stamp) && a <= NBUF
    ensures Sized(l) && |stamp| == NBUF && l.next[a] <= NBUF && (a == HEAD ==> l.next[a] != HEAD)
    ensures l.next[a] != HEAD && a != HEAD ==> stamp[l.next[a]] < stamp[a]
    ensures forall x :: 0 <= x < NBUF && (l.next[a] == HEAD || stamp[x] > stamp[l.next[a]]) ==>
            x == a || (a != HEAD && stamp[x] > stamp[a])
  {
    hide ListOk, NodeOk, Below;
    NodeFacts(All(), l, stamp, a);
    var n := l.next[a];
    assert 0 in All();
    forall x | 0 <= x < NBUF && (n == HEAD || stamp[x] > stamp[n])
      ensures x == a || (a != HEAD && stamp[x] > stamp[a])
    {
      assert x in All();
    }
  }

  lemma VisitPrev(l: Links, stamp: seq<nat>, a: nat)
    requires ListOk(All(), l, stamp) && a <= NBUF
    ensures Sized(l) && |stamp| == NBUF && l.prev[a] <= NBUF && (a == HEAD ==> l.prev[a] != HEAD)
    ensures l.prev[a] != HEAD && a != HEAD ==> stamp[l.prev[a]] > stamp[a]
    ensures forall x :: 0 <= x < NBUF && (l.prev[a] == HEAD || stamp[x] < stamp[l.prev[a]]) ==>
            x == a || (a != HEAD && stamp[x] < stamp[a])
  {
    hide ListOk, NodeOk, Below;
    PrevFacts(All(), l, stamp, a);
    var p := l.prev[a];
    NodeFacts(All(), l, stamp, p);
    assert 0 in All();
    forall x | 0 <= x < NBUF && (p == HEAD || stamp[x] < stamp[p])
      ensures x == a || (a != HEAD && stamp[x] < stamp[a])
    {
      assert x in All();
    }
  }

  lemma PrevFacts(s: set<nat>, l: Links, stamp: seq<nat>, a: nat)
    requires ListOk(s, l, stamp) && a <= NBUF && On(s, a)
    ensures Sized(l) && l.prev[a] <= NBUF && On(s, l.prev[a]) && l.next[l.prev[a]] == a
  {
    assert NodeOk(s, l, stamp, a);
  }

  lemma NodeInverse(l: Links, stamp: seq<nat>, b: nat)
    requires ListOk(All(), l, stamp) && b < NBUF
    ensures l.next[b] <= NBUF && l.prev[b] <= NBUF && l.prev[l.next[b]] == b && l.next[l.prev[b]] == b
    ensures l.prev[b] != b && l.next[b] != b
  {
    assert On(All(), b) && NodeOk(All(), l, stamp, b);
    assert NodeOk(All(), l, stamp, l.prev[b]);
  }

  lemma LockInv(c: Cache, d: Cache)
    requires Inv(c) && d == c.(lock := d.lock) && |d.lock| == NBUF
    requires forall b :: 0 <= b < NBUF && d.lock[b].Held? ==> d.lock[b].token in c.uses && c.uses[d.lock[b].token] == b
    ensures Inv(d) && SameStore(c, d)
  {
    hide ListOk, UniqueKeys, SameStore, Count;
    SameKeys(c, d);
    SameFields(c, d);
    CleanKeep(c, d);
  }

  lemma SameRefl(c: Cache)
    requires Full(c)
    ensures SameStore(c, c)
  {
  }

  lemma StoreTrans(c: Cache, d: Cache, e: Cache)
    requires Full(c) && Full(d) && Full(e) && SameStore(c, d) && SameStore(d, e)
    ensures SameStore(c, e)
  {
    hide Logical;
  }

  lemma LogicalAtInv(c: Cache, b: nat)
    requires Inv(c) && b < NBUF && c.dev[b] != 0 && c.valid[b]
    ensures Logical(c, KeyOf(c, b)) == c.data[b]
  {
    LogicalAt(c, b, KeyOf(c, b));
  }

  lemma HeldCount(c: Cache, b: nat)
    requires Inv(c) && b < NBUF && c.lock[b].Held?
    ensures c.refcnt[b] > 0
  {
    hide ListOk;
    CountPositive(c.uses, c.lock[b].token);
  }

  /** The six assignments of brelse() amount to taking the buffer out and putting it in front. */
  lemma UnlinkWrites(l: Links, b: nat)
    requires Sized(l) && b < NBUF && l.next[b] <= NBUF && l.prev[b] <= NBUF && Unlink(l, b).next[HEAD] <= NBUF
    requires l.prev[l.next[b]] == b && l.next[l.prev[b]] == b && l.prev[b] != b && l.next[b] != b
    ensures var prev1 := l.prev[l.next[b] := l.prev[b]];
            var next1 := l.next[prev1[b] := l.next[b]];
            && prev1[b] == l.prev[b] && next1[b] == l.next[b] && next1[HEAD] <= NBUF
            && var next2 := next1[b := next1[HEAD]];
            var prev2 := prev1[b := HEAD];
            PushFront(Unlink(l, b), b) == Links(next2[HEAD := b], prev2[next2[HEAD] := b])
  {
  }

  lemma SameKey(c: Cache, x: nat, y: nat)
    requires Full(c) && UniqueKeys(c) && x < NBUF && y < NBUF && c.dev[x] != 0 && KeyOf(c, x) == KeyOf(c, y)
    ensures x == y
  {
  }

  lemma SizesOf(c: Cache)
    requires Inv(c)
    ensures Full(c)
  {
  }

  // ---------------------------------------------------------------- the code

  class Bcache {
    var dev: seq<nat>
    var blockno: seq<nat>
    var refcnt: seq<nat>
    var valid: seq<bool>
    var data: seq<Block>
    var lock: seq<Lock>
    var next: seq<nat>
    var prev: seq<nat>
    var disk: map<Key, Block>
    ghost var stamp: seq<nat>
    ghost var clock: nat
    ghost var uses: map<Token, nat>

    ghost function C(): Cache
      reads this
    {
      Cache(dev, blockno, refcnt, valid, data, lock, Links(next, prev), disk, stamp, clock, uses)
    }

    /** binit(), on zeroed memory. */
    constructor (disk: map<Key, Block>)
      ensures Inv(C()) && uses == map[] && this.disk == disk
      ensures forall k :: Logical(C(), k) == OnDisk(disk, k)
    {
      this.disk := disk;
      dev, blockno, refcnt := seq(NBUF, _ => 0), seq(NBUF, _ => 0), seq(NBUF, _ => 0);
      valid, data, lock := seq(NBUF, _ => false), seq(NBUF, _ => []), seq(NBUF, _ => Open);
      next, prev := seq(NBUF + 1, _ => HEAD), seq(NBUF + 1, _ => HEAD);
      stamp, clock, uses := seq(NBUF, b requires 0 <= b < NBUF => b), NBUF, map[];
      new;
      LinkAll();
      FreshCache(C());
    }

    /** The loop of binit(): each buffer goes behind the head in turn. */
    method LinkAll()
      requires Sized(Links(next, prev)) && next[HEAD] == HEAD && prev[HEAD] == HEAD
      requires |stamp| == NBUF && forall x :: 0 <= x < NBUF ==> stamp[x] == x
      modifies this`next, this`prev
      ensures ListOk(All(), Links(next, prev), stamp)
    {
      hide ListOk;
      EmptyList(Links(next, prev), stamp);
      var b := 0;
      while b < NBUF
        invariant b <= NBUF && ListOk(Below(b), Links(next, prev), stamp) && Sized(Links(next, prev))
      {
        ghost var l := Links(next, prev);
        PushNext(l, stamp, b);
        next := next[b := next[HEAD]];
        prev := prev[b := HEAD];
        prev := prev[next[HEAD] := b];
        next := next[HEAD := b];
        b := b + 1;
      }
    }

    /** The first loop of bget(). */
    method FindCached(k: Key) returns (b: nat)
      requires Inv(C()) && k.dev != 0
      ensures b <= NBUF
      ensures b < NBUF ==> KeyOf(C(), b) == k
      ensures b == HEAD ==> forall x :: 0 <= x < NBUF ==> KeyOf(C(), x) != k
    {
      hide ListOk, CountsOk, UniqueKeys, CleanOk, Below, All;
      VisitNext(Links(next, prev), stamp, HEAD);
      b := next[HEAD];
      while b != HEAD
        invariant b <= NBUF
        invariant forall x :: 0 <= x < NBUF && (b == HEAD || stamp[x] > stamp[b]) ==> KeyOf(C(), x) != k
        decreases if b == HEAD then 0 else stamp[b] + 1
      {
        if dev[b] == k.dev && blockno[b] == k.blockno {
          return;
        }
        VisitNext(Links(next, prev), stamp, b);
        b := next[b];
      }
    }

    /** The second loop of bget(): the unused buffer that was released longest ago. */
    method FindUnused() returns (b: nat)
      requires Inv(C())
      ensures b <= NBUF
      ensures b < NBUF ==> Oldest(C(), b)
      ensures b == HEAD ==> forall x :: 0 <= x < NBUF ==> refcnt[x] != 0
    {
      hide ListOk, CountsOk, UniqueKeys, CleanOk, Below, All;
      VisitPrev(Links(next, prev), stamp, HEAD);
      b := prev[HEAD];
      while b != HEAD
        invariant b <= NBUF
        invariant forall x :: 0 <= x < NBUF && (b == HEAD || stamp[x] < stamp[b]) ==> refcnt[x] != 0
        decreases if b == HEAD then 0 else clock - stamp[b]
      {
        if refcnt[b] == 0 {
          return;
        }
        VisitPrev(Links(next, prev), stamp, b);
        b := prev[b];
      }
    }

    /** bget() under bcache.lock, for a reader that becomes token t: a cached buffer gets one
        more reference; otherwise the longest unused one is recycled.  Held and pinned buffers
        never are, and no client can see that one was. */
    method Bget(k: Key, ghost t: Token) returns (b: nat, panicked: bool)
      requires Inv(C()) && k.dev != 0 && t !in uses
      modifies this
      ensures panicked <==> (forall x :: 0 <= x < NBUF ==> old(refcnt)[x] != 0 && KeyOf(old(C()), x) != k)
      ensures panicked ==> C() == old(C())
      ensures !panicked ==> Inv(C()) && SameStore(old(C()), C()) && Bgot(old(C()), C(), b, k, t)
    {
      hide ListOk, CountsOk, UniqueKeys, CleanOk, SameStore, Below, All;
      ghost var c := C();
      b := FindCached(k);
      if b != HEAD {
        RefInv(c, b, t);
        refcnt := refcnt[b := refcnt[b] + 1];
        uses := uses[t := b];
        return b, false;
      }
      b := FindUnused();
      if b == HEAD {
        return b, true; // panic("bget: no buffers")
      }
      RecycleInv(c, b, k, t);
      RecycleStore(c, b, k, t);
      dev := dev[b := k.dev];
      blockno := blockno[b := k.blockno];
      valid := valid[b := false];
      refcnt := refcnt[b := 1];
      uses := uses[t := b];
      return b, false;
    }

    /** acquiresleep() returning, for the reader with token t. */
    method Lock(t: Token, b: nat)
      requires Inv(C()) && t in uses && uses[t] == b && b < NBUF && lock[b].Open?
      modifies this`lock
      ensures Inv(C()) && SameStore(old(C()), C()) && lock == old(lock)[b := Held(t)]
    {
      hide ListOk, UniqueKeys, CleanOk, SameStore, Count;
      ghost var c := C();
      lock := lock[b := Held(t)];
      LockInv(c, C());
    }

    /** The rest of bread(): whoever has the lock sees the block store. */
    method Fill(t: Token, b: nat) returns (bl: Block)
      requires Inv(C()) && b < NBUF && lock[b] == Held(t) && dev[b] != 0
      modifies this`data, this`valid
      ensures Inv(C()) && SameStore(old(C()), C()) && C() == if old(valid)[b] then old(C()) else FillIn(old(C()), b)
      ensures bl == data[b] == Logical(C(), KeyOf(C(), b))
    {
      hide ListOk, CountsOk, UniqueKeys, CleanOk, SameStore, Logical;
      if !valid[b] {
        FillInv(C(), b);
        // virtio_disk_rw(b, 0)
        data := data[b := if Key(dev[b], blockno[b]) in disk then disk[Key(dev[b], blockno[b])] else []];
        valid := valid[b := true];
      } else {
        SameRefl(C());
      }
      LogicalAtInv(C(), b);
      return data[b];
    }

    /** A client writing into b->data. */
    method Modify(t: Token, b: nat, bl: Block)
      requires Inv(C()) && b < NBUF && lock[b] == Held(t) && dev[b] != 0 && valid[b]
      modifies this`data
      ensures Inv(C()) && data == old(data)[b := bl]
      ensures forall k :: Logical(C(), k) == if k == KeyOf(C(), b) then bl else Logical(old(C()), k)
    {
      hide ListOk, CountsOk, UniqueKeys, CleanOk, Logical;
      HeldCount(C(), b);
      ChangedInv(C(), b, bl);
      data := data[b := bl];
    }

    method Bwrite(t: Token, b: nat)
      requires Inv(C()) && b < NBUF && lock[b] == Held(t) && dev[b] != 0 && valid[b]
      modifies this`disk
      ensures Inv(C()) && SameStore(old(C()), C()) && CleanAt(C(), b) && disk == old(disk)[KeyOf(C(), b) := data[b]]
    {
      hide ListOk, CountsOk, UniqueKeys, CleanOk, SameStore, Below, All;
      FlushedInv(C(), b);
      disk := disk[Key(dev[b], blockno[b]) := data[b]]; // virtio_disk_rw(b, 1)
    }

    /** releasesleep() at the start of brelse(). */
    method Unlock(t: Token, b: nat)
      requires Inv(C()) && b < NBUF && lock[b] == Held(t)
      modifies this`lock
      ensures Inv(C()) && SameStore(old(C()), C()) && lock == old(lock)[b := Open]
    {
      hide ListOk, UniqueKeys, CleanOk, SameStore, Count;
      ghost var c := C();
      lock := lock[b := Open];
      LockInv(c, C());
    }

    /** The rest of brelse(), under bcache.lock.  A client must have written or pinned what it
        changed before it lets go of the last reference. */
    method Release(t: Token, b: nat)
      requires Inv(C()) && t in uses && uses[t] == b && b < NBUF && (forall x :: 0 <= x < NBUF ==> lock[x] != Held(t))
      requires refcnt[b] == 1 ==> CleanAt(C(), b)
      modifies this
      ensures Inv(C()) && SameStore(old(C()), C()) && uses == old(uses) - {t}
      ensures disk == old(disk) && data == old(data) && valid == old(valid) && dev == old(dev)
      ensures blockno == old(blockno) && lock == old(lock)
      ensures old(refcnt)[b] == 1 ==> forall x :: 0 <= x < NBUF && x != b ==> stamp[x] < stamp[b]
      ensures old(refcnt)[b] != 1 ==> stamp == old(stamp)
    {
      hide ListOk, CountsOk, UniqueKeys, CleanOk, SameStore, Below, All;
      ghost var c := C();
      DerefInv(c, t);
      refcnt := refcnt[b := refcnt[b] - 1];
      uses := uses - {t};
      if refcnt[b] == 0 {
        ghost var d := C();
        MoveToFront(b);
        StoreTrans(c, d, C());
      }
    }

    method MoveToFront(b: nat)
      requires Inv(C()) && b < NBUF
      modifies this`next, this`prev, this`stamp, this`clock
      ensures Inv(C()) && SameStore(old(C()), C()) && stamp == old(stamp)[b := old(clock)] && clock == old(clock) + 1
      ensures forall x :: 0 <= x < NBUF && x != b ==> stamp[x] < stamp[b]
    {
      hide ListOk, CountsOk, UniqueKeys, CleanOk, SameStore, Below, All, PushFront, Unlink;
      ghost var d := C();
      RefreshInv(d, b);
      NodeInverse(d.links, stamp, b);
      UnlinkWrites(d.links, b);
      prev := prev[next[b] := prev[b]];
      next := next[prev[b] := next[b]];
      next := next[b := next[HEAD]];
      prev := prev[b := HEAD];
      prev := prev[next[HEAD] := b];
      next := next[HEAD := b];
      stamp := stamp[b := clock];
      clock := clock + 1;
      assert C() == Refresh(d, b);
    }

    /** bpin(), as log_write() does: the buffer stays until the matching bunpin(). */
    method Bpin(b: nat, ghost t: Token)
      requires Inv(C()) && b < NBUF && t !in uses
      modifies this`refcnt, this`uses
      ensures Inv(C()) && SameStore(old(C()), C()) && uses == old(uses)[t := b]
    {
      hide ListOk, CountsOk, UniqueKeys, CleanOk, SameStore, Below, All;
      RefInv(C(), b, t);
      refcnt := refcnt[b := refcnt[b] + 1];
      uses := uses[t := b];
    }

    /** bunpin(), after install_trans() has written the buffer. */
    method Bunpin(b: nat, ghost t: Token)
      requires Inv(C()) && t in uses && uses[t] == b && b < NBUF && (forall x :: 0 <= x < NBUF ==> lock[x] != Held(t))
      requires refcnt[b] == 1 ==> CleanAt(C(), b)
      modifies this`refcnt, this`uses
      ensures Inv(C()) && SameStore(old(C()), C()) && uses == old(uses) - {t}
    {
      hide ListOk, CountsOk, UniqueKeys, CleanOk, SameStore, Below, All;
      DerefInv(C(), t);
      refcnt := refcnt[b := refcnt[b] - 1];
      uses := uses - {t};
    }
  }
}
