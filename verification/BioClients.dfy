/** The clients of the buffer cache: any number of bread()s in progress and any number of pinned
    blocks, in any interleaving of their steps.

    A client follows the rules of kernel/bio.c and kernel/log.c: it looks at and changes a block
    only while it holds the buffer's lock, lets go of the lock only if what it changed is written
    or pinned, and unpins only what is written. */
module BufferUse {
  import opened Counting
  import opened Bio
  import opened Params

  /** How far a bread() has come: it has a reference, the lock, the data, and at the end only
      the reference again. */
  datatype Phase = Waiting | Locked | Reading | Leaving

  datatype Use = Use(k: Key, phase: Phase)

  /** The bread()s in progress, the pinned blocks, and the blocks changed but not yet written. */
  datatype Table = Table(open: map<nat, Use>, pins: set<Key>, dirty: set<Key>)

  /** What the clients see: a plain block store. */
  datatype View = View(store: map<Key, Block>, tab: Table)

  datatype Op =
    | Bget(t: nat, k: Key)
    | Acquire(t: nat)
    | Fill(t: nat)
    | Look(t: nat)
    | Modify(t: nat, bl: Block)
    | Bpin(t: nat)
    | Bwrite(t: nat)
    | Bunpin(t: nat)
    | Release(t: nat)
    | Brelse(t: nat)

  predicate HasLock(u: Use) { u.phase.Locked? || u.phase.Reading? }

  predicate At(tab: Table, t: nat, phase: Phase) { t in tab.open && tab.open[t].phase == phase }

  /** The step can be taken now: the lock is free, the client is that far, the rules are kept. */
  predicate Enabled(tab: Table, op: Op) {
    match op
    case Bget(t, k) => t !in tab.open && k.dev != 0
    case Acquire(t) =>
      At(tab, t, Waiting)
      && forall u :: u in tab.open && tab.open[u].k == tab.open[t].k ==> !HasLock(tab.open[u])
    case Fill(t) => At(tab, t, Locked)
    case Look(t) => At(tab, t, Reading)
    case Modify(t, _) => At(tab, t, Reading)
    case Bpin(t) => At(tab, t, Reading) && tab.open[t].k !in tab.pins
    case Bwrite(t) => At(tab, t, Reading)
    case Bunpin(t) => At(tab, t, Reading) && tab.open[t].k in tab.pins && tab.open[t].k !in tab.dirty
    case Release(t) => At(tab, t, Reading) && (tab.open[t].k in tab.dirty ==> tab.open[t].k in tab.pins)
    case Brelse(t) => At(tab, t, Leaving)
  }

  function Moved(tab: Table, op: Op): Table
    requires Enabled(tab, op)
  {
    match op
    case Bget(t, k) => tab.(open := tab.open[t := Use(k, Waiting)])
    case Acquire(t) => tab.(open := tab.open[t := tab.open[t].(phase := Locked)])
    case Fill(t) => tab.(open := tab.open[t := tab.open[t].(phase := Reading)])
    case Look(t) => tab
    case Modify(t, _) => tab.(dirty := tab.dirty + {tab.open[t].k})
    case Bpin(t) => tab.(pins := tab.pins + {tab.open[t].k})
    case Bwrite(t) => tab.(dirty := tab.dirty - {tab.open[t].k})
    case Bunpin(t) => tab.(pins := tab.pins - {tab.open[t].k})
    case Release(t) => tab.(open := tab.open[t := tab.open[t].(phase := Leaving)])
    case Brelse(t) => tab.(open := tab.open - {t})
  }

  /** One step on the plain store; a step that cannot be taken now is not taken. */
  function Next(v: View, op: Op): View {
    if !Enabled(v.tab, op) then v
    else View(if op.Modify? then v.store[v.tab.open[op.t].k := op.bl] else v.store, Moved(v.tab, op))
  }

  /** What a client reads in a step. */
  function Out(v: View, op: Op): Block {
    if Enabled(v.tab, op) && (op.Fill? || op.Look?) then OnDisk(v.store, v.tab.open[op.t].k) else []
  }

  /** The blocks that somebody refers to. */
  function InUse(tab: Table): set<Key> { (set t | t in tab.open :: tab.open[t].k) + tab.pins }

  /** panic("bget: no buffers"): as many blocks are in use as there are buffers, and k is not
      among them. */
  predicate Halts(tab: Table, op: Op) {
    Enabled(tab, op) && op.Bget? && |InUse(tab)| == NBUF && op.k !in InUse(tab)
  }

  function Final(v: View, ops: seq<Op>): View
    decreases |ops|
  {
    if ops == [] || Halts(v.tab, ops[0]) then v else Final(Next(v, ops[0]), ops[1..])
  }

  function Outs(v: View, ops: seq<Op>): seq<Block>
    decreases |ops|
  {
    if ops == [] || Halts(v.tab, ops[0]) then [] else [Out(v, ops[0])] + Outs(Next(v, ops[0]), ops[1..])
  }

  /** A run falls short only at a bget() that halts. */
  lemma {:induction false} StopsAt(v: View, ops: seq<Op>)
    ensures |Outs(v, ops)| <= |ops|
    ensures |Outs(v, ops)| < |ops| ==> Halts(Final(v, ops).tab, ops[|Outs(v, ops)|])
    decreases |ops|
  {
    hide Halts, Next, Out;
    if ops != [] && !Halts(v.tab, ops[0]) {
      StopsAt(Next(v, ops[0]), ops[1..]);
    }
  }

  // ---------------------------------------------------------------- the link to the cache

  ghost predicate InBuffer(c: Cache, b: nat, k: Key) { Full(c) && b < NBUF && k.dev != 0 && KeyOf(c, b) == k }

  /** Exactly the clients' references are counted, each to the buffer of its block. */
  ghost predicate TokensOk(c: Cache, tab: Table, at: map<nat, nat>) {
    && at.Keys == tab.open.Keys
    && (forall t :: Reader(t) in c.uses <==> t in tab.open)
    && (forall k :: Pin(k) in c.uses <==> k in tab.pins)
    && (forall t :: t in at ==> InBuffer(c, at[t], tab.open[t].k) && c.uses[Reader(t)] == at[t])
    && (forall k :: k in tab.pins ==> InBuffer(c, c.uses[Pin(k)], k))
  }

  ghost predicate LocksOk(c: Cache, tab: Table, at: map<nat, nat>)
    requires Full(c) && at.Keys == tab.open.Keys && forall t :: t in at ==> at[t] < NBUF
  {
    && (forall b: nat :: b < NBUF && c.lock[b].Held? ==>
        c.lock[b].token.Reader? && Holder(tab, at, c.lock[b].token.t, b))
    && (forall t :: t in at && HasLock(tab.open[t]) ==> c.lock[at[t]] == Held(Reader(t)))
    && (forall t :: t in at && tab.open[t].phase.Reading? ==> c.valid[at[t]])
  }

  predicate Holder(tab: Table, at: map<nat, nat>, t: nat, b: nat) {
    t in at && t in tab.open && at[t] == b && HasLock(tab.open[t])
  }

  /** The disk differs from the store at most where a change has not been written. */
  ghost predicate StoreOk(c: Cache, v: View)
    requires Full(c)
  {
    && (forall k :: Logical(c, k) == OnDisk(v.store, k))
    && (forall k :: k !in v.tab.dirty ==> OnDisk(c.disk, k) == OnDisk(v.store, k))
  }

  /** A change that has not been written is pinned, or its client has the lock. */
  ghost predicate DirtyOk(tab: Table) {
    forall k :: k in tab.dirty && k !in tab.pins ==> exists t :: At(tab, t, Reading) && tab.open[t].k == k
  }

  ghost predicate Linked(c: Cache, v: View, at: map<nat, nat>) {
    && Inv(c) && Full(c) && TokensOk(c, v.tab, at) && LocksOk(c, v.tab, at) && StoreOk(c, v) && DirtyOk(v.tab)
  }

  lemma DirtyStep(tab: Table, op: Op)
    requires DirtyOk(tab) && Enabled(tab, op)
    ensures DirtyOk(Moved(tab, op))
  {
    var m := Moved(tab, op);
    forall k | k in m.dirty && k !in m.pins ensures exists t :: At(m, t, Reading) && m.open[t].k == k {
      if op.Modify? && k == tab.open[op.t].k {
        assert At(m, op.t, Reading);
      } else {
        var t :| At(tab, t, Reading) && tab.open[t].k == k;
        assert At(m, t, Reading);
      }
    }
  }

  // ---------------------------------------------------------------- when bget() halts

  ghost function Referenced(c: Cache): set<nat>
    requires Full(c)
  {
    set b: nat | b < NBUF && c.refcnt[b] != 0
  }

  ghost function KeysOf(c: Cache, s: set<nat>): set<Key>
    requires Full(c) && forall b :: b in s ==> b < NBUF
  {
    set b | b in s :: KeyOf(c, b)
  }

  lemma {:induction false} KeysSize(c: Cache, s: set<nat>)
    requires Full(c) && UniqueKeys(c) && forall b :: b in s ==> b < NBUF && c.dev[b] != 0
    ensures |KeysOf(c, s)| == |s|
    decreases s
  {
    hide UniqueKeys;
    if s == {} {
      assert KeysOf(c, s) == {};
    } else {
      var b :| b in s;
      KeysSize(c, s - {b});
      assert KeysOf(c, s) == KeysOf(c, s - {b}) + {KeyOf(c, b)};
      if KeyOf(c, b) in KeysOf(c, s - {b}) {
        var d :| d in s - {b} && KeyOf(c, d) == KeyOf(c, b);
        SameKey(c, b, d);
        assert false;
      }
    }
  }

  /** A buffer that is referenced is that of a block in use, and the other way round. */
  lemma ReferencedAt(c: Cache, tab: Table, at: map<nat, nat>, b: nat)
    requires Full(c) && CountsOk(c) && TokensOk(c, tab, at) && b < NBUF && c.refcnt[b] != 0
    ensures c.dev[b] != 0 && KeyOf(c, b) in InUse(tab)
  {
    assert Holders(c.uses, b) != {};
    var x :| x in Holders(c.uses, b);
    match x {
      case Reader(t) => assert InBuffer(c, at[t], tab.open[t].k);
      case Pin(k) => assert InBuffer(c, c.uses[Pin(k)], k);
    }
  }

  lemma InUseAt(c: Cache, tab: Table, at: map<nat, nat>, k: Key) returns (b: nat)
    requires Full(c) && CountsOk(c) && TokensOk(c, tab, at) && k in InUse(tab)
    ensures b < NBUF && c.refcnt[b] != 0 && KeyOf(c, b) == k
  {
    if k in tab.pins {
      b := c.uses[Pin(k)];
      assert InBuffer(c, b, k);
      CountPositive(c.uses, Pin(k));
    } else {
      var t :| t in tab.open && tab.open[t].k == k;
      b := at[t];
      assert InBuffer(c, b, k);
      CountPositive(c.uses, Reader(t));
    }
  }

  lemma InUseSize(c: Cache, tab: Table, at: map<nat, nat>)
    requires Full(c) && CountsOk(c) && UniqueKeys(c) && TokensOk(c, tab, at)
    ensures |InUse(tab)| == |Referenced(c)|
  {
    hide CountsOk, UniqueKeys, TokensOk, InUse;
    forall b | b in Referenced(c) ensures c.dev[b] != 0 && KeyOf(c, b) in InUse(tab) {
      ReferencedAt(c, tab, at, b);
    }
    forall k | k in InUse(tab) ensures k in KeysOf(c, Referenced(c)) {
      var b := InUseAt(c, tab, at, k);
      assert b in Referenced(c);
    }
    assert KeysOf(c, Referenced(c)) == InUse(tab);
    KeysSize(c, Referenced(c));
  }

  lemma AllReferenced(c: Cache)
    requires Full(c)
    ensures |Referenced(c)| == NBUF <==> forall b :: 0 <= b < NBUF ==> c.refcnt[b] != 0
  {
    hide Below;
    BelowSize(NBUF);
    var s := Referenced(c);
    assert s <= Below(NBUF);
    assert |Below(NBUF) - s| == NBUF - |s|;
    if |s| == NBUF {
      forall b | 0 <= b < NBUF ensures c.refcnt[b] != 0 {
        assert b in Below(NBUF);
        assert b !in Below(NBUF) - s;
      }
    } else {
      var b :| b in Below(NBUF) - s;
    }
  }

  /** The two loops of bget() fail exactly when the clients' blocks fill the cache. */
  lemma NoBuffers(c: Cache, tab: Table, at: map<nat, nat>, k: Key)
    requires Full(c) && CountsOk(c) && UniqueKeys(c) && TokensOk(c, tab, at)
    ensures (forall b :: 0 <= b < NBUF ==> c.refcnt[b] != 0 && KeyOf(c, b) != k) <==>
            |InUse(tab)| == NBUF && k !in InUse(tab)
  {
    hide CountsOk, UniqueKeys, TokensOk, InUse, Referenced;
    InUseSize(c, tab, at);
    AllReferenced(c);
    if k in InUse(tab) {
      var b := InUseAt(c, tab, at, k);
      assert KeyOf(c, b) == k;
    } else if |InUse(tab)| == NBUF {
      forall b | 0 <= b < NBUF ensures KeyOf(c, b) != k {
        ReferencedAt(c, tab, at, b);
      }
    }
  }

  // ---------------------------------------------------------------- one step keeps the link

  /** A buffer somebody refers to keeps its block through bget(). */
  lemma GetKeeps(c: Cache, d: Cache, tab: Table, at: map<nat, nat>, b: nat, k: Key, t: nat, x: Token)
    requires Inv(c) && TokensOk(c, tab, at) && Full(d) && Bgot(c, d, b, k, Reader(t)) && x in c.uses && t !in tab.open
    ensures c.uses[x] < NBUF && KeyOf(d, c.uses[x]) == KeyOf(c, c.uses[x]) && d.valid[c.uses[x]] == c.valid[c.uses[x]]
  {
    hide ListOk, UniqueKeys, CleanOk;
    CountPositive(c.uses, x);
    assert c.refcnt[c.uses[x]] == Count(c.uses, c.uses[x]);
  }

  lemma GotFields(c: Cache, d: Cache, b: nat, k: Key, x: Token)
    requires Full(c) && Full(d) && Bgot(c, d, b, k, x)
    ensures d.uses == c.uses[x := b] && d.lock == c.lock && b < NBUF && KeyOf(d, b) == k && d.disk == c.disk
  {
    hide Oldest;
  }

  lemma GetTokens(c: Cache, d: Cache, tab: Table, at: map<nat, nat>, b: nat, k: Key, t: nat)
    requires Inv(c) && TokensOk(c, tab, at) && Full(d) && Bgot(c, d, b, k, Reader(t)) && Enabled(tab, Bget(t, k))
    ensures TokensOk(d, Moved(tab, Bget(t, k)), at[t := b]) && d.uses == c.uses[Reader(t) := b] && d.lock == c.lock
  {
    hide Inv, Bgot, Moved, InBuffer;
    SizesOf(c);
    GotFields(c, d, b, k, Reader(t));
    forall x | x in c.uses ensures c.uses[x] < NBUF && KeyOf(d, c.uses[x]) == KeyOf(c, c.uses[x]) {
      GetKeeps(c, d, tab, at, b, k, t, x);
    }
    MoreTokens(c, d, tab, at, b, k, t);
  }

  lemma MoreTokens(c: Cache, d: Cache, tab: Table, at: map<nat, nat>, b: nat, k: Key, t: nat)
    requires Full(c) && Full(d) && TokensOk(c, tab, at) && Enabled(tab, Bget(t, k)) && b < NBUF && KeyOf(d, b) == k
    requires d.uses == c.uses[Reader(t) := b]
    requires forall x :: x in c.uses ==> c.uses[x] < NBUF && KeyOf(d, c.uses[x]) == KeyOf(c, c.uses[x])
    ensures TokensOk(d, Moved(tab, Bget(t, k)), at[t := b])
  {
    hide KeyOf;
  }

  lemma GetLocks(c: Cache, d: Cache, tab: Table, at: map<nat, nat>, b: nat, k: Key, t: nat)
    requires Inv(c) && TokensOk(c, tab, at) && Full(c) && LocksOk(c, tab, at)
    requires Full(d) && Bgot(c, d, b, k, Reader(t)) && Enabled(tab, Bget(t, k))
    ensures LocksOk(d, Moved(tab, Bget(t, k)), at[t := b])
  {
    hide Inv, Bgot;
    GotFields(c, d, b, k, Reader(t));
    GetTokens(c, d, tab, at, b, k, t);
    forall u | u in at ensures d.valid[at[u]] == c.valid[at[u]] {
      GetKeeps(c, d, tab, at, b, k, t, Reader(u));
    }
  }

  /** Tokens and keys are as they were. */
  lemma TokensSame(c: Cache, d: Cache, tab: Table, m: Table, at: map<nat, nat>)
    requires TokensOk(c, tab, at) && Full(c) && Full(d) && d.uses == c.uses && d.dev == c.dev && d.blockno == c.blockno
    requires m.pins == tab.pins && m.open.Keys == tab.open.Keys
    requires forall t :: t in tab.open ==> m.open[t].k == tab.open[t].k
    ensures TokensOk(d, m, at)
  {
    forall t | t in at ensures InBuffer(d, at[t], m.open[t].k) { assert InBuffer(c, at[t], tab.open[t].k); }
    forall k | k in m.pins ensures InBuffer(d, d.uses[Pin(k)], k) { assert InBuffer(c, c.uses[Pin(k)], k); }
  }

  lemma StoreSame(c: Cache, d: Cache, v: View, m: Table)
    requires Full(c) && Full(d) && StoreOk(c, v) && SameStore(c, d) && d.disk == c.disk && m.dirty == v.tab.dirty
    ensures StoreOk(d, v.(tab := m))
  {
    hide Logical;
  }

  /** The lock of a block is open when no client has it. */
  lemma LockOpen(c: Cache, tab: Table, at: map<nat, nat>, t: nat)
    requires Full(c) && TokensOk(c, tab, at) && LocksOk(c, tab, at) && Enabled(tab, Acquire(t))
    ensures at[t] < NBUF && c.lock[at[t]].Open?
  {
    assert InBuffer(c, at[t], tab.open[t].k);
    if c.lock[at[t]].Held? {
      SameBlock(c, tab, at, t, c.lock[at[t]].token.t);
    }
  }

  lemma SameBlock(c: Cache, tab: Table, at: map<nat, nat>, t: nat, u: nat)
    requires TokensOk(c, tab, at) && t in at && u in at && at[t] == at[u]
    ensures tab.open[t].k == tab.open[u].k
  {
    assert InBuffer(c, at[t], tab.open[t].k) && InBuffer(c, at[u], tab.open[u].k);
  }

  /** What is not dirty is clean. */
  lemma CleanKey(c: Cache, v: View, b: nat)
    requires Inv(c) && Full(c) && StoreOk(c, v) && b < NBUF && KeyOf(c, b) !in v.tab.dirty
    ensures CleanAt(c, b)
  {
    hide ListOk, CountsOk, Logical;
    if c.dev[b] != 0 && c.valid[b] {
      LogicalAt(c, b, KeyOf(c, b));
    }
  }

  lemma TwoUses(c: Cache, x: Token, y: Token)
    requires Full(c) && CountsOk(c) && x in c.uses && y in c.uses && x != y && c.uses[x] == c.uses[y]
    ensures c.uses[x] < NBUF && c.refcnt[c.uses[x]] >= 2
  {
    assert {x, y} <= Holders(c.uses, c.uses[x]);
    Subset({x, y}, Holders(c.uses, c.uses[x]));
  }

  /** Whoever lets go of the last reference leaves the buffer clean. */
  lemma LastClean(c: Cache, v: View, at: map<nat, nat>, t: nat)
    requires Linked(c, v, at) && At(v.tab, t, Leaving) && c.refcnt[at[t]] == 1
    ensures CleanAt(c, at[t])
  {
    hide ListOk, StoreOk, LocksOk, CleanAt, InUse;
    var k := v.tab.open[t].k;
    assert InBuffer(c, at[t], k);
    if k in v.tab.dirty {
      if k in v.tab.pins {
        assert InBuffer(c, c.uses[Pin(k)], k);
        SameKey(c, c.uses[Pin(k)], at[t]);
        TwoUses(c, Pin(k), Reader(t));
      } else {
        var u :| At(v.tab, u, Reading) && v.tab.open[u].k == k;
        assert InBuffer(c, at[u], k);
        SameKey(c, at[u], at[t]);
        TwoUses(c, Reader(u), Reader(t));
      }
    } else {
      CleanKey(c, v, at[t]);
    }
  }

  /** The facts an operation on the buffer of a Reading client starts from. */
  lemma AtWork(c: Cache, v: View, at: map<nat, nat>, t: nat)
    requires Linked(c, v, at) && t in v.tab.open
    ensures t in at && at[t] < NBUF && c.dev[at[t]] != 0 && KeyOf(c, at[t]) == v.tab.open[t].k
    ensures Reader(t) in c.uses && c.uses[Reader(t)] == at[t]
    ensures HasLock(v.tab.open[t]) ==> c.lock[at[t]] == Held(Reader(t))
    ensures At(v.tab, t, Reading) ==> c.valid[at[t]] && c.data[at[t]] == OnDisk(v.store, v.tab.open[t].k)
    ensures v.tab.open[t].k in v.tab.pins ==> Pin(v.tab.open[t].k) in c.uses && c.uses[Pin(v.tab.open[t].k)] == at[t]
    ensures v.tab.open[t].k !in v.tab.pins ==> Pin(v.tab.open[t].k) !in c.uses
  {
    hide ListOk, CountsOk, CleanOk, Logical;
    var k := v.tab.open[t].k;
    assert InBuffer(c, at[t], k);
    if k in v.tab.pins {
      assert InBuffer(c, c.uses[Pin(k)], k);
      SameKey(c, at[t], c.uses[Pin(k)]);
    }
    if At(v.tab, t, Reading) {
      LogicalAt(c, at[t], k);
    }
  }

  lemma NoLock(c: Cache, v: View, at: map<nat, nat>, x: Token)
    requires Linked(c, v, at) && (x.Reader? ==> x.t !in v.tab.open || !HasLock(v.tab.open[x.t]))
    ensures forall b :: 0 <= b < NBUF ==> c.lock[b] != Held(x)
  {
    hide Inv;
  }

  lemma EmptyLocks(c: Cache)
    requires Full(c) && CountsOk(c) && c.uses == map[]
    ensures LocksOk(c, Table(map[], {}, {}), map[])
  {
  }

  lemma FreshReader(c: Cache, tab: Table, at: map<nat, nat>, t: nat)
    requires Inv(c) && TokensOk(c, tab, at) && t !in tab.open
    ensures Reader(t) !in c.uses && CountsOk(c) && UniqueKeys(c)
  {
    hide ListOk, CountsOk, UniqueKeys;
  }

  lemma LocksSame(c: Cache, d: Cache, tab: Table, m: Table, at: map<nat, nat>)
    requires Full(c) && Full(d) && TokensOk(c, tab, at) && LocksOk(c, tab, at) && TokensOk(d, m, at)
    requires d.lock == c.lock && d.valid == c.valid && m.open == tab.open
    ensures LocksOk(d, m, at)
  {
  }

  lemma LocksTake(c: Cache, d: Cache, tab: Table, at: map<nat, nat>, t: nat)
    requires Full(c) && Full(d) && TokensOk(c, tab, at) && LocksOk(c, tab, at) && Enabled(tab, Acquire(t))
    requires at[t] < NBUF
    requires d.lock == c.lock[at[t] := Held(Reader(t))] && d.valid == c.valid
    ensures LocksOk(d, Moved(tab, Acquire(t)), at)
  {
    LockOpen(c, tab, at, t);
  }

  lemma LocksFill(c: Cache, d: Cache, tab: Table, at: map<nat, nat>, t: nat)
    requires Full(c) && Full(d) && TokensOk(c, tab, at) && LocksOk(c, tab, at) && Enabled(tab, Op.Fill(t))
    requires at[t] < NBUF
    requires d.lock == c.lock && d.valid == c.valid[at[t] := true]
    ensures LocksOk(d, Moved(tab, Op.Fill(t)), at)
  {
  }

  lemma LocksOpen(c: Cache, d: Cache, tab: Table, at: map<nat, nat>, t: nat)
    requires Full(c) && Full(d) && TokensOk(c, tab, at) && LocksOk(c, tab, at) && Enabled(tab, Op.Release(t))
    requires at[t] < NBUF
    requires d.lock == c.lock[at[t] := Open] && d.valid == c.valid
    ensures LocksOk(d, Moved(tab, Op.Release(t)), at)
  {
  }

  lemma LocksDrop(c: Cache, d: Cache, tab: Table, at: map<nat, nat>, t: nat)
    requires Full(c) && Full(d) && TokensOk(c, tab, at) && LocksOk(c, tab, at) && Enabled(tab, Op.Brelse(t))
    requires d.lock == c.lock && d.valid == c.valid
    ensures LocksOk(d, Moved(tab, Op.Brelse(t)), at - {t})
  {
  }

  lemma TokensPin(c: Cache, d: Cache, tab: Table, at: map<nat, nat>, t: nat)
    requires Full(c) && Full(d) && TokensOk(c, tab, at) && Enabled(tab, Op.Bpin(t))
    requires d.uses == c.uses[Pin(tab.open[t].k) := at[t]] && d.dev == c.dev && d.blockno == c.blockno
    ensures TokensOk(d, Moved(tab, Op.Bpin(t)), at)
  {
    var m := Moved(tab, Op.Bpin(t));
    forall u | u in at ensures InBuffer(d, at[u], m.open[u].k) { assert InBuffer(c, at[u], tab.open[u].k); }
    forall k | k in m.pins ensures InBuffer(d, d.uses[Pin(k)], k) {
      if k in tab.pins {
        assert InBuffer(c, c.uses[Pin(k)], k);
      }
    }
  }

  lemma TokensUnpin(c: Cache, d: Cache, tab: Table, at: map<nat, nat>, t: nat)
    requires Full(c) && Full(d) && TokensOk(c, tab, at) && Enabled(tab, Op.Bunpin(t))
    requires d.uses == c.uses - {Pin(tab.open[t].k)} && d.dev == c.dev && d.blockno == c.blockno
    ensures TokensOk(d, Moved(tab, Op.Bunpin(t)), at)
  {
    var m := Moved(tab, Op.Bunpin(t));
    forall u | u in at ensures InBuffer(d, at[u], m.open[u].k) { assert InBuffer(c, at[u], tab.open[u].k); }
    forall k | k in m.pins ensures InBuffer(d, d.uses[Pin(k)], k) { assert InBuffer(c, c.uses[Pin(k)], k); }
  }

  lemma TokensDrop(c: Cache, d: Cache, tab: Table, at: map<nat, nat>, t: nat)
    requires Full(c) && Full(d) && TokensOk(c, tab, at) && Enabled(tab, Op.Brelse(t))
    requires d.uses == c.uses - {Reader(t)} && d.dev == c.dev && d.blockno == c.blockno
    ensures TokensOk(d, Moved(tab, Op.Brelse(t)), at - {t})
  {
    var m := Moved(tab, Op.Brelse(t));
    forall u | u in at - {t} ensures InBuffer(d, at[u], m.open[u].k) { assert InBuffer(c, at[u], tab.open[u].k); }
    forall k | k in m.pins ensures InBuffer(d, d.uses[Pin(k)], k) { assert InBuffer(c, c.uses[Pin(k)], k); }
  }

  lemma StoreChanged(c: Cache, d: Cache, v: View, t: nat, bl: Block)
    requires Full(c) && Full(d) && StoreOk(c, v) && Enabled(v.tab, Op.Modify(t, bl)) && d.disk == c.disk
    requires forall k :: Logical(d, k) == if k == v.tab.open[t].k then bl else Logical(c, k)
    ensures StoreOk(d, Next(v, Op.Modify(t, bl)))
  {
    hide Logical;
  }

  lemma StoreFlushed(c: Cache, d: Cache, v: View, t: nat)
    requires Full(c) && Full(d) && StoreOk(c, v) && Enabled(v.tab, Op.Bwrite(t)) && SameStore(c, d)
    requires d.disk == c.disk[v.tab.open[t].k := OnDisk(v.store, v.tab.open[t].k)]
    ensures StoreOk(d, Next(v, Op.Bwrite(t)))
  {
    hide Logical;
  }

  // ---------------------------------------------------------------- a full group

  /** A transaction changing block k: bread(), the change, log_write(), brelse(). */
  function Update(k: Key, bl: Block): seq<Op> {
    [Bget(0, k), Acquire(0), Op.Fill(0), Op.Modify(0, bl), Op.Bpin(0), Op.Release(0), Op.Brelse(0)]
  }

  /** The table between transactions, with the blocks of the group pinned. */
  function Group(blocks: set<Key>): Table { Table(map[], blocks, blocks) }

  lemma FinalStep(v: View, op: Op, rest: seq<Op>)
    requires !Halts(v.tab, op)
    ensures Final(v, [op] + rest) == Final(Next(v, op), rest)
    ensures |Outs(v, [op] + rest)| == 1 + |Outs(Next(v, op), rest)|
  {
    hide Halts, Next, Out;
    assert ([op] + rest)[1..] == rest;
  }

  /** The table while the one client is at block k. */
  function Busy(blocks: set<Key>, dirty: set<Key>, k: Key, phase: Phase): Table {
    Table(map[0 := Use(k, phase)], blocks, dirty)
  }

  lemma BusyMoves(w: map<Key, Block>, p: set<Key>, d: set<Key>, k: Key, phase: Phase, bl: Block)
    ensures phase.Waiting? ==> Next(View(w, Busy(p, d, k, phase)), Acquire(0)) == View(w, Busy(p, d, k, Locked))
    ensures phase.Locked? ==> Next(View(w, Busy(p, d, k, phase)), Op.Fill(0)) == View(w, Busy(p, d, k, Reading))
    ensures phase.Reading? ==>
            Next(View(w, Busy(p, d, k, phase)), Op.Modify(0, bl)) == View(w[k := bl], Busy(p, d + {k}, k, Reading))
    ensures phase.Reading? && k !in p ==>
            Next(View(w, Busy(p, d, k, phase)), Op.Bpin(0)) == View(w, Busy(p + {k}, d, k, Reading))
    ensures phase.Reading? && k in p ==>
            Next(View(w, Busy(p, d, k, phase)), Op.Release(0)) == View(w, Busy(p, d, k, Leaving))
    ensures phase.Leaving? ==> Next(View(w, Busy(p, d, k, phase)), Op.Brelse(0)) == View(w, Table(map[], p, d))
  {
  }

  lemma GroupMoves(w: map<Key, Block>, p: set<Key>, k: Key)
    requires k.dev != 0
    ensures Next(View(w, Group(p)), Bget(0, k)) == View(w, Busy(p, p, k, Waiting))
    ensures Enabled(Group(p), Bget(0, k)) && InUse(Group(p)) == p
  {
  }

  /** A run through given states, none of which halts. */
  lemma {:induction false} RunThrough(v: View, vs: seq<View>, ops: seq<Op>)
    requires |vs| == |ops| > 0 && !Halts(v.tab, ops[0]) && vs[0] == Next(v, ops[0])
    requires forall i :: 1 <= i < |ops| ==> !ops[i].Bget? && vs[i] == Next(vs[i - 1], ops[i])
    ensures Final(v, ops) == vs[|ops| - 1] && |Outs(v, ops)| == |ops|
    decreases |ops|
  {
    hide Next, Out, Enabled, InUse;
    FinalStep(v, ops[0], ops[1..]);
    assert ops == [ops[0]] + ops[1..];
    if |ops| > 1 {
      assert vs[1] == Next(vs[0], ops[1]);
      RunThrough(vs[0], vs[1..], ops[1..]);
    }
  }

  lemma {:induction false} OutsAt(v: View, vs: seq<View>, ops: seq<Op>, i: nat)
    requires |vs| == |ops| > i > 0 && !Halts(v.tab, ops[0]) && vs[0] == Next(v, ops[0])
    requires forall i :: 1 <= i < |ops| ==> !ops[i].Bget? && vs[i] == Next(vs[i - 1], ops[i])
    ensures |Outs(v, ops)| == |ops| && Outs(v, ops)[i] == Out(vs[i - 1], ops[i])
    decreases i
  {
    hide Next, Out, Enabled, InUse;
    RunThrough(v, vs, ops);
    assert vs[1] == Next(vs[0], ops[1]);
    assert Outs(v, ops) == [Out(v, ops[0])] + Outs(vs[0], ops[1..]);
    if i == 1 {
      assert Outs(vs[0], ops[1..]) == [Out(vs[0], ops[1])] + Outs(vs[1], ops[1..][1..]);
    } else {
      OutsAt(vs[0], vs[1..], ops[1..], i - 1);
    }
  }

  lemma UpdateGroup(v: View, blocks: set<Key>, k: Key, bl: Block)
    requires v.tab == Group(blocks) && k !in blocks && k.dev != 0 && |blocks| < NBUF
    ensures Final(v, Update(k, bl)) == View(v.store[k := bl], Group(blocks + {k}))
    ensures |Outs(v, Update(k, bl))| == |Update(k, bl)|
  {
    hide Next, Busy, Final, Outs, Out, Enabled, InUse;
    var u, more := v.store[k := bl], blocks + {k};
    GroupMoves(v.store, blocks, k);
    BusyMoves(v.store, blocks, blocks, k, Waiting, bl);
    BusyMoves(v.store, blocks, blocks, k, Locked, bl);
    BusyMoves(v.store, blocks, blocks, k, Reading, bl);
    BusyMoves(u, blocks, more, k, Reading, bl);
    BusyMoves(u, more, more, k, Reading, bl);
    BusyMoves(u, more, more, k, Leaving, bl);
    var vs := [
      View(v.store, Busy(blocks, blocks, k, Waiting)), View(v.store, Busy(blocks, blocks, k, Locked)),
      View(v.store, Busy(blocks, blocks, k, Reading)), View(u, Busy(blocks, more, k, Reading)),
      View(u, Busy(more, more, k, Reading)), View(u, Busy(more, more, k, Leaving)), View(u, Group(more))];
    RunThrough(v, vs, Update(k, bl));
  }

  /** A block of the group going to its place: bread(), bwrite(), bunpin(), brelse(). */
  function Install(k: Key): seq<Op> {
    [Bget(0, k), Acquire(0), Op.Fill(0), Op.Bwrite(0), Op.Bunpin(0), Op.Release(0), Op.Brelse(0)]
  }

  lemma InstallMoves(w: map<Key, Block>, p: set<Key>, d: set<Key>, k: Key)
    ensures Next(View(w, Busy(p, d, k, Reading)), Op.Bwrite(0)) == View(w, Busy(p, d - {k}, k, Reading))
    ensures k in p && k !in d ==>
              Next(View(w, Busy(p, d, k, Reading)), Op.Bunpin(0)) == View(w, Busy(p - {k}, d, k, Reading))
    ensures k !in d ==> Next(View(w, Busy(p, d, k, Reading)), Op.Release(0)) == View(w, Busy(p, d, k, Leaving))
    ensures Out(View(w, Busy(p, d, k, Locked)), Op.Fill(0)) == OnDisk(w, k)
  {
  }

  /** It finds the block as it was changed last, in however full a cache, and takes it out of the
      group. */
  lemma InstallGroup(v: View, blocks: set<Key>, k: Key)
    requires v.tab == Group(blocks) && k in blocks && k.dev != 0
    ensures Final(v, Install(k)) == View(v.store, Group(blocks - {k}))
    ensures |Outs(v, Install(k))| == |Install(k)| && Outs(v, Install(k))[2] == OnDisk(v.store, k)
  {
    hide Next, Busy, Final, Outs, Out, Enabled, InUse, OnDisk;
    var w, less := v.store, blocks - {k};
    GroupMoves(w, blocks, k);
    BusyMoves(w, blocks, blocks, k, Waiting, []);
    BusyMoves(w, blocks, blocks, k, Locked, []);
    InstallMoves(w, blocks, blocks, k);
    InstallMoves(w, blocks, less, k);
    InstallMoves(w, less, less, k);
    BusyMoves(w, less, less, k, Leaving, []);
    var vs := [
      View(w, Busy(blocks, blocks, k, Waiting)), View(w, Busy(blocks, blocks, k, Locked)),
      View(w, Busy(blocks, blocks, k, Reading)), View(w, Busy(blocks, less, k, Reading)),
      View(w, Busy(less, less, k, Reading)), View(w, Busy(less, less, k, Leaving)), View(w, Group(less))];
    RunThrough(v, vs, Install(k));
    OutsAt(v, vs, Install(k), 2);
  }

  // ---------------------------------------------------------------- the clients

  class Clients {
    const cache: Bcache
    var tab: Table
    var at: map<nat, nat>
    ghost var store: map<Key, Block>

    ghost function V(): View
      reads this
    {
      View(store, tab)
    }

    ghost predicate Valid()
      reads this, cache
    {
      Linked(cache.C(), V(), at)
    }

    constructor (disk: map<Key, Block>)
      ensures Valid() && fresh(cache) && V() == View(disk, Table(map[], {}, {}))
    {
      cache := new Bcache(disk);
      tab, at, store := Table(map[], {}, {}), map[], disk;
      new;
      hide ListOk, Logical, CountsOk, CleanOk, UniqueKeys;
      assert LocksOk(cache.C(), tab, at) by { EmptyLocks(cache.C()); }
    }

    /** bget() for the client t. */
    method Get(t: nat, k: Key) returns (panicked: bool)
      requires Valid() && Enabled(tab, Bget(t, k))
      modifies this`tab, this`at, cache
      ensures panicked <==> Halts(old(tab), Bget(t, k))
      ensures panicked ==> V() == old(V())
      ensures !panicked ==> Valid() && V() == Next(old(V()), Bget(t, k))
    {
      hide Inv, SameStore, Bgot, TokensOk, LocksOk, StoreOk, DirtyOk, InUse;
      ghost var c := cache.C();
      FreshReader(c, tab, at, t);
      NoBuffers(c, tab, at, k);
      var b;
      b, panicked := cache.Bget(k, Reader(t));
      if panicked {
        return;
      }
      ghost var d := cache.C();
      SizesOf(d);
      GotFields(c, d, b, k, Reader(t));
      GetTokens(c, d, tab, at, b, k, t);
      GetLocks(c, d, tab, at, b, k, t);
      DirtyStep(tab, Bget(t, k));
      StoreSame(c, d, V(), Moved(tab, Bget(t, k)));
      tab, at := tab.(open := tab.open[t := Use(k, Waiting)]), at[t := b];
    }

    /** acquiresleep(), which returns when the lock is free. */
    method Lock(t: nat)
      requires Valid() && Enabled(tab, Acquire(t))
      modifies this`tab, cache
      ensures Valid() && V() == Next(old(V()), Acquire(t))
    {
      hide Inv, SameStore, TokensOk, LocksOk, StoreOk, DirtyOk;
      ghost var c, m := cache.C(), Moved(tab, Acquire(t));
      AtWork(c, V(), at, t);
      LockOpen(c, tab, at, t);
      DirtyStep(tab, Acquire(t));
      cache.Lock(Reader(t), at[t]);
      SizesOf(cache.C());
      TokensSame(c, cache.C(), tab, m, at);
      LocksTake(c, cache.C(), tab, at, t);
      StoreSame(c, cache.C(), V(), m);
      tab := tab.(open := tab.open[t := tab.open[t].(phase := Locked)]);
    }

    /** The rest of bread(). */
    method Read(t: nat) returns (bl: Block)
      requires Valid() && Enabled(tab, Op.Fill(t))
      modifies this`tab, cache
      ensures Valid() && V() == Next(old(V()), Op.Fill(t)) && bl == Out(old(V()), Op.Fill(t))
    {
      hide Inv, SameStore, TokensOk, LocksOk, StoreOk, DirtyOk;
      ghost var c, m := cache.C(), Moved(tab, Op.Fill(t));
      AtWork(c, V(), at, t);
      DirtyStep(tab, Op.Fill(t));
      bl := cache.Fill(Reader(t), at[t]);
      SizesOf(cache.C());
      TokensSame(c, cache.C(), tab, m, at);
      LocksFill(c, cache.C(), tab, at, t);
      StoreSame(c, cache.C(), V(), m);
      tab := tab.(open := tab.open[t := tab.open[t].(phase := Reading)]);
      AtWork(cache.C(), V(), at, t);
    }

    /** A client looking at the data it has locked. */
    method Look(t: nat) returns (bl: Block)
      requires Valid() && Enabled(tab, Op.Look(t))
      ensures V() == Next(V(), Op.Look(t)) && bl == Out(V(), Op.Look(t))
    {
      hide Inv, TokensOk, LocksOk, StoreOk;
      AtWork(cache.C(), V(), at, t);
      return cache.data[at[t]];
    }

    /** A client changing the data it has locked. */
    method Change(t: nat, bl: Block)
      requires Valid() && Enabled(tab, Op.Modify(t, bl))
      modifies this`tab, this`store, cache
      ensures Valid() && V() == Next(old(V()), Op.Modify(t, bl))
    {
      hide Inv, TokensOk, LocksOk, StoreOk, DirtyOk, Logical;
      ghost var c, m := cache.C(), Moved(tab, Op.Modify(t, bl));
      AtWork(c, V(), at, t);
      DirtyStep(tab, Op.Modify(t, bl));
      cache.Modify(Reader(t), at[t], bl);
      SizesOf(cache.C());
      TokensSame(c, cache.C(), tab, m, at);
      LocksSame(c, cache.C(), tab, m, at);
      StoreChanged(c, cache.C(), V(), t, bl);
      store := store[tab.open[t].k := bl];
      tab := tab.(dirty := tab.dirty + {tab.open[t].k});
    }

    /** bwrite(). */
    method Flush(t: nat)
      requires Valid() && Enabled(tab, Op.Bwrite(t))
      modifies this`tab, cache
      ensures Valid() && V() == Next(old(V()), Op.Bwrite(t))
    {
      hide Inv, TokensOk, LocksOk, StoreOk, DirtyOk, Logical, SameStore;
      ghost var c, m := cache.C(), Moved(tab, Op.Bwrite(t));
      AtWork(c, V(), at, t);
      DirtyStep(tab, Op.Bwrite(t));
      cache.Bwrite(Reader(t), at[t]);
      SizesOf(cache.C());
      TokensSame(c, cache.C(), tab, m, at);
      LocksSame(c, cache.C(), tab, m, at);
      StoreFlushed(c, cache.C(), V(), t);
      tab := tab.(dirty := tab.dirty - {tab.open[t].k});
    }

    /** bpin(), by log_write() for a block that is new in the log. */
    method Keep(t: nat)
      requires Valid() && Enabled(tab, Op.Bpin(t))
      modifies this`tab, cache
      ensures Valid() && V() == Next(old(V()), Op.Bpin(t))
    {
      hide Inv, TokensOk, LocksOk, StoreOk, DirtyOk, SameStore;
      ghost var c, m, k := cache.C(), Moved(tab, Op.Bpin(t)), tab.open[t].k;
      AtWork(c, V(), at, t);
      DirtyStep(tab, Op.Bpin(t));
      cache.Bpin(at[t], Pin(k));
      SizesOf(cache.C());
      TokensPin(c, cache.C(), tab, at, t);
      LocksSame(c, cache.C(), tab, m, at);
      StoreSame(c, cache.C(), V(), m);
      tab := tab.(pins := tab.pins + {tab.open[t].k});
    }

    /** bunpin(), by install_trans() for a block it has written. */
    method Unkeep(t: nat)
      requires Valid() && Enabled(tab, Op.Bunpin(t))
      modifies this`tab, cache
      ensures Valid() && V() == Next(old(V()), Op.Bunpin(t))
    {
      hide Inv, TokensOk, LocksOk, StoreOk, DirtyOk, SameStore;
      ghost var c, m, k := cache.C(), Moved(tab, Op.Bunpin(t)), tab.open[t].k;
      AtWork(c, V(), at, t);
      DirtyStep(tab, Op.Bunpin(t));
      CleanKey(c, V(), at[t]);
      NoLock(c, V(), at, Pin(k));
      cache.Bunpin(at[t], Pin(k));
      SizesOf(cache.C());
      TokensUnpin(c, cache.C(), tab, at, t);
      LocksSame(c, cache.C(), tab, m, at);
      StoreSame(c, cache.C(), V(), m);
      tab := tab.(pins := tab.pins - {tab.open[t].k});
    }

    /** releasesleep() at the start of brelse(). */
    method Unlock(t: nat)
      requires Valid() && Enabled(tab, Op.Release(t))
      modifies this`tab, cache
      ensures Valid() && V() == Next(old(V()), Op.Release(t))
    {
      hide Inv, TokensOk, LocksOk, StoreOk, DirtyOk, SameStore;
      ghost var c, m := cache.C(), Moved(tab, Op.Release(t));
      AtWork(c, V(), at, t);
      DirtyStep(tab, Op.Release(t));
      cache.Unlock(Reader(t), at[t]);
      SizesOf(cache.C());
      TokensSame(c, cache.C(), tab, m, at);
      LocksOpen(c, cache.C(), tab, at, t);
      StoreSame(c, cache.C(), V(), m);
      tab := tab.(open := tab.open[t := tab.open[t].(phase := Leaving)]);
    }

    /** The rest of brelse(). */
    method Drop(t: nat)
      requires Valid() && Enabled(tab, Op.Brelse(t))
      modifies this`tab, this`at, cache
      ensures Valid() && V() == Next(old(V()), Op.Brelse(t))
    {
      hide Inv, TokensOk, LocksOk, StoreOk, DirtyOk, SameStore;
      ghost var c, m := cache.C(), Moved(tab, Op.Brelse(t));
      AtWork(c, V(), at, t);
      DirtyStep(tab, Op.Brelse(t));
      NoLock(c, V(), at, Reader(t));
      if cache.refcnt[at[t]] == 1 {
        LastClean(c, V(), at, t);
      }
      cache.Release(Reader(t), at[t]);
      SizesOf(cache.C());
      TokensDrop(c, cache.C(), tab, at, t);
      LocksDrop(c, cache.C(), tab, at, t);
      StoreSame(c, cache.C(), V(), m);
      tab, at := tab.(open := tab.open - {t}), at - {t};
    }

    /** Whatever is not waiting to be written is on the disk. */
    lemma OnDiskUnlessDirty(k: Key)
      requires Valid() && k !in tab.dirty
      ensures OnDisk(cache.disk, k) == OnDisk(store, k)
    {
      hide Inv, TokensOk, LocksOk;
    }

    /** One step of any client. */
    method Step(op: Op) returns (bl: Block, panicked: bool)
      requires Valid()
      modifies this, cache
      ensures panicked <==> Halts(old(tab), op)
      ensures panicked ==> V() == old(V())
      ensures !panicked ==> Valid() && V() == Next(old(V()), op) && bl == Out(old(V()), op)
    {
      hide Linked, Enabled, Moved, InUse;
      bl, panicked := [], false;
      if !Enabled(tab, op) {
        return;
      }
      match op {
        case Bget(t, k) => panicked := Get(t, k);
        case Acquire(t) => Lock(t);
        case Fill(t) => bl := Read(t);
        case Look(t) => bl := Look(t);
        case Modify(t, b) => Change(t, b);
        case Bpin(t) => Keep(t);
        case Bwrite(t) => Flush(t);
        case Bunpin(t) => Unkeep(t);
        case Release(t) => Unlock(t);
        case Brelse(t) => Drop(t);
      }
    }

    /** The cache is transparent: in every interleaving of every set of clients, each reads what
        a plain block store holds, until a bget() finds all buffers in use by other blocks. */
    method Run(ops: seq<Op>) returns (outs: seq<Block>, panicked: bool)
      requires Valid()
      modifies this, cache
      ensures outs == Outs(old(V()), ops) && V() == Final(old(V()), ops)
      ensures panicked <==> |outs| < |ops|
      ensures !panicked ==> Valid()
    {
      hide Linked, Halts, Next, Out;
      outs, panicked := [], false;
      var i := 0;
      while i < |ops|
        invariant i <= |ops| && Valid() && !panicked && |outs| == i
        invariant outs + Outs(V(), ops[i..]) == Outs(old(V()), ops)
        invariant Final(V(), ops[i..]) == Final(old(V()), ops)
      {
        assert ops[i..][1..] == ops[i + 1..];
        var bl;
        bl, panicked := Step(ops[i]);
        if panicked {
          return;
        }
        outs := outs + [bl];
        i := i + 1;
      }
    }
  }

  /** The commit of a group of blocks, from boot: one transaction after another has changed and
      pinned them, nobody else uses the cache, and now write_log() reads its first log block.
      There are as many buffers as blocks in the largest group, so that a group of that size
      leaves no buffer for the log: bget() panics exactly then. */
  method CommitGroup(disk: map<Key, Block>, blocks: seq<Key>, bl: Block, log: Key) returns (panicked: bool)
    requires |blocks| <= NBUF && (forall i :: 0 <= i < |blocks| ==> blocks[i].dev != 0 && blocks[i] != log)
    requires log.dev != 0
    requires forall i, j :: 0 <= i < j < |blocks| ==> blocks[i] != blocks[j]
    ensures panicked <==> |blocks| == NBUF
  {
    hide Linked, Next, Enabled, Out;
    var clients := new Clients(disk);
    ghost var pinned: set<Key> := {};
    var i := 0;
    while i < |blocks|
      invariant i <= |blocks| && clients.Valid() && clients.tab == Group(pinned) && |pinned| == i
      invariant forall k :: k in pinned <==> k in blocks[..i]
      invariant fresh(clients) && fresh(clients.cache)
    {
      UpdateGroup(clients.V(), pinned, blocks[i], bl);
      var outs;
      outs, panicked := clients.Run(Update(blocks[i], bl));
      pinned := pinned + {blocks[i]};
      i := i + 1;
    }
    GroupMoves(clients.store, pinned, log);
    panicked := clients.Get(0, log);
  }
}
