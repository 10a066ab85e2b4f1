/** The request queue of kernel/virtio_disk.c against a device that follows sections 2.6 and 5.2
    of VIRTIO 1.1.

    The driver's steps are what it does while it holds vdisk_lock: submitting a request, handling
    one used entry, freeing the chain of a finished request.  The device's steps are taking the
    next available entry, and carrying out a taken request, in any order. */
module Virtio {
  import opened Counting
  import opened Rings
  import opened Wrappers
  import opened Params

  const NUM: nat := 8
  const WRAP: nat := 0x1_0000
  const F_NEXT: nat := 1
  const F_WRITE: nat := 2

  type Block = seq<int>

  /** What a descriptor points to. */
  datatype Addr = Null | OpOf(i: nat) | DataOf(b: nat) | StatusOf(i: nat)
  datatype Desc = Desc(addr: Addr, len: nat, flags: nat, next: nat)
  datatype BlkReq = BlkReq(write: bool, sector: nat)

  /** Offered in the available ring, taken by the device, carried out and in the used ring, or
      seen by the interrupt handler. */
  datatype Phase = Offered | Taken | Used | Done
  datatype Req = Req(d1: nat, d2: nat, b: nat, op: BlkReq, phase: Phase)

  function Zero(): Desc { Desc(Null, 0, 0, 0) }

  /** The last five fields are ghost: the requests by their head descriptor, the request each
      descriptor belongs to, the contents of the two rings, and the unfinished requests. */
  datatype Disk = Disk(
    free: seq<bool>, desc: seq<Desc>, ops: seq<BlkReq>, infoB: seq<Option<nat>>, status: seq<nat>,
    availRing: seq<nat>, availIdx: nat, devIdx: nat, usedRing: seq<nat>, usedIdx: nat, seenIdx: nat,
    busy: set<nat>, data: map<nat, Block>, sectors: map<nat, Block>,
    submits: nat, completes: nat, inflight: nat,
    reqs: map<nat, Req>, owner: map<nat, nat>, offered: seq<nat>, used: seq<nat>, active: set<nat>)

  // ---------------------------------------------------------------- the invariant

  predicate Sized(d: Disk) { |d.free| == |d.desc| == |d.ops| == |d.infoB| == |d.status| == NUM }

  function HeadDesc(h: nat, d1: nat): Desc { Desc(OpOf(h), 16, F_NEXT, d1) }
  function DataDesc(b: nat, write: bool, d2: nat): Desc {
    Desc(DataOf(b), BSIZE, if write then F_NEXT else F_WRITE + F_NEXT, d2)
  }
  function StatusDesc(h: nat): Desc { Desc(StatusOf(h), 1, F_WRITE, 0) }

  predicate Linked(desc: seq<Desc>, h: nat, r: Req)
    requires |desc| == NUM
  {
    && h < NUM && r.d1 < NUM && r.d2 < NUM && h != r.d1 && h != r.d2 && r.d1 != r.d2
    && desc[h] == HeadDesc(h, r.d1) && desc[r.d1] == DataDesc(r.b, r.op.write, r.d2) && desc[r.d2] == StatusDesc(h)
  }

  /** The chain of request r with head h is in the descriptor table as it was submitted. */
  predicate ChainOk(d: Disk, h: nat, r: Req)
    requires Sized(d)
  {
    && Linked(d.desc, h, r)
    && d.ops[h] == r.op && d.infoB[h] == Some(r.b)
    && StatusOk(r.phase, d.status[h])
  }

  /** The device writes the status when it is through; a bad one stops the interrupt handler. */
  predicate StatusOk(p: Phase, st: nat) { (p.Offered? || p.Taken? ==> st == 255) && (p.Done? ==> st == 0) }

  ghost predicate Chains(d: Disk)
    requires Sized(d)
  {
    forall h :: h in d.reqs ==> ChainOk(d, h, d.reqs[h])
  }

  predicate PartOf(h: nat, r: Req, i: nat) { i == h || i == r.d1 || i == r.d2 }

  predicate FreeAt(d: Disk, i: nat)
    requires Sized(d) && i < NUM
  {
    (d.free[i] <==> i !in d.owner) && (d.free[i] ==> d.desc[i] == Zero())
  }

  predicate Owned(d: Disk, i: nat)
    requires i in d.owner
  {
    i < NUM && d.owner[i] in d.reqs && PartOf(d.owner[i], d.reqs[d.owner[i]], i)
  }

  predicate Belongs(d: Disk, h: nat, i: nat) { i in d.owner && d.owner[i] == h }

  predicate OwnsAll(d: Disk, h: nat)
    requires h in d.reqs
  {
    Belongs(d, h, h) && Belongs(d, h, d.reqs[h].d1) && Belongs(d, h, d.reqs[h].d2)
  }

  /** Every descriptor is free and cleared or belongs to exactly one request, three to each. */
  ghost predicate OwnerOk(d: Disk)
    requires Sized(d)
  {
    && (forall i: nat :: i < NUM ==> FreeAt(d, i))
    && (forall i: nat :: i in d.owner ==> Owned(d, i))
    && (forall h: nat :: h in d.reqs ==> OwnsAll(d, h))
    && |d.owner| == 3 * |d.reqs|
  }

  predicate InPhase(d: Disk, h: nat, p: Phase) { h in d.reqs && d.reqs[h].phase == p }

  ghost predicate QueuesOk(d: Disk) {
    && RingOk(d.availRing, NUM, WRAP, d.devIdx, d.availIdx, d.offered) && NoRepeats(d.offered)
    && RingOk(d.usedRing, NUM, WRAP, d.seenIdx, d.usedIdx, d.used) && NoRepeats(d.used)
    && (forall h :: h in d.offered <==> InPhase(d, h, Offered))
    && (forall h :: h in d.used <==> InPhase(d, h, Used))
  }

  /** A buffer is in at most one request, and busy until its completion has been seen. */
  ghost predicate BuffersOk(d: Disk) {
    && (forall h, g :: h in d.reqs && g in d.reqs && h != g ==> d.reqs[h].b != d.reqs[g].b)
    && (forall h :: h in d.active <==> h in d.reqs && d.reqs[h].phase != Done)
    && (forall h :: h in d.reqs ==> (d.reqs[h].b in d.busy <==> h in d.active))
  }

  predicate CountersOk(d: Disk) { d.inflight == |d.active| && d.submits == d.completes + d.inflight }

  ghost predicate Inv(d: Disk) {
    Sized(d) && Chains(d) && OwnerOk(d) && QueuesOk(d) && BuffersOk(d) && CountersOk(d)
  }

  // ---------------------------------------------------------------- what it means

  /** At most two requests are outstanding. */
  lemma AtMostTwo(d: Disk)
    requires Sized(d) && OwnerOk(d)
    ensures |d.reqs| <= 2
  {
    hide FreeAt, OwnsAll, Below;
    forall i: nat | i in d.owner.Keys ensures i in Below(NUM) { assert Owned(d, i); }
    assert d.owner.Keys <= Below(NUM);
    BelowSize(NUM);
    Subset(d.owner.Keys, Below(NUM));
    assert |d.owner.Keys| == |d.owner|;
  }

  lemma QueuesWithin(d: Disk)
    requires QueuesOk(d)
    ensures NoRepeats(d.offered) && forall i :: 0 <= i < |d.offered| ==> d.offered[i] in d.reqs
    ensures NoRepeats(d.used) && forall i :: 0 <= i < |d.used| ==> d.used[i] in d.reqs
  {
    hide RingOk;
    forall i | 0 <= i < |d.offered| ensures d.offered[i] in d.reqs { assert d.offered[i] in d.offered; }
    forall i | 0 <= i < |d.used| ensures d.used[i] in d.reqs { assert d.used[i] in d.used; }
  }

  /** So both rings always have room: no unread entry is ever overwritten. */
  lemma RingsHaveRoom(d: Disk)
    requires Inv(d)
    ensures |d.offered| <= 2 < NUM && |d.used| <= 2 < NUM
  {
    hide Chains, OwnerOk, QueuesOk, BuffersOk, CountersOk;
    AtMostTwo(d);
    QueuesWithin(d);
    assert |d.reqs.Keys| == |d.reqs|;
    DistinctSize(d.offered, d.reqs.Keys);
    DistinctSize(d.used, d.reqs.Keys);
  }

  /** Chains of different requests share no descriptor, and the rest are the free ones. */
  lemma ChainsDisjoint(d: Disk, h: nat, g: nat, i: nat)
    requires Inv(d) && h in d.reqs && g in d.reqs && PartOf(h, d.reqs[h], i)
    ensures i < NUM && !d.free[i] && (PartOf(g, d.reqs[g], i) ==> g == h)
  {
    hide Chains, QueuesOk, BuffersOk, CountersOk;
    assert OwnsAll(d, h) && OwnsAll(d, g);
    assert Belongs(d, h, i);
    assert Owned(d, i) && FreeAt(d, i);
  }

  // ---------------------------------------------------------------- submitting

  predicate Three(d: Disk, h: nat, d1: nat, d2: nat)
    requires Sized(d)
  {
    h < NUM && d1 < NUM && d2 < NUM && h != d1 && h != d2 && d1 != d2 && d.free[h] && d.free[d1] && d.free[d2]
  }

  function Submitted(d: Disk, h: nat, d1: nat, d2: nat, b: nat, op: BlkReq): Disk
    requires Sized(d) && h < NUM && d1 < NUM && d2 < NUM && |d.availRing| == NUM
  {
    d.(free := d.free[h := false][d1 := false][d2 := false],
       desc := d.desc[h := HeadDesc(h, d1)][d1 := DataDesc(b, op.write, d2)][d2 := StatusDesc(h)],
       ops := d.ops[h := op], infoB := d.infoB[h := Some(b)], status := d.status[h := 255], busy := d.busy + {b},
       availRing := d.availRing[d.availIdx % NUM := h], availIdx := (d.availIdx + 1) % WRAP,
       submits := d.submits + 1, inflight := d.inflight + 1,
       reqs := d.reqs[h := Req(d1, d2, b, op, Offered)], owner := d.owner[h := h][d1 := h][d2 := h],
       offered := d.offered + [h], active := d.active + {h})
  }

  /** The descriptors of a request are not free, so they are not the ones just allocated. */
  lemma NotFree(d: Disk, g: nat)
    requires Sized(d) && OwnerOk(d) && g in d.reqs
    ensures g < NUM && d.reqs[g].d1 < NUM && d.reqs[g].d2 < NUM
    ensures !d.free[g] && !d.free[d.reqs[g].d1] && !d.free[d.reqs[g].d2]
  {
    assert OwnsAll(d, g);
    assert Owned(d, g) && Owned(d, d.reqs[g].d1) && Owned(d, d.reqs[g].d2);
    assert FreeAt(d, g) && FreeAt(d, d.reqs[g].d1) && FreeAt(d, d.reqs[g].d2);
  }

  lemma SubmitChains(d: Disk, h: nat, d1: nat, d2: nat, b: nat, op: BlkReq)
    requires Sized(d) && |d.availRing| == NUM && Chains(d) && OwnerOk(d) && Three(d, h, d1, d2)
    ensures Chains(Submitted(d, h, d1, d2, b, op))
  {
    hide OwnerOk;
    var e := Submitted(d, h, d1, d2, b, op);
    forall g | g in e.reqs ensures ChainOk(e, g, e.reqs[g]) {
      if g != h {
        NotFree(d, g);
        assert ChainOk(d, g, d.reqs[g]);
      }
    }
  }

  lemma FreshHead(d: Disk, h: nat)
    requires Sized(d) && OwnerOk(d) && h < NUM && d.free[h]
    ensures h !in d.reqs && h !in d.owner
  {
    assert FreeAt(d, h);
    assert h in d.reqs ==> OwnsAll(d, h);
  }

  lemma SubmitOwned(d: Disk, e: Disk, h: nat, r: Req, i: nat)
    requires i in d.owner && Owned(d, i) && h !in d.reqs && i != h && i != r.d1 && i != r.d2
    requires e.owner == d.owner[h := h][r.d1 := h][r.d2 := h] && e.reqs == d.reqs[h := r]
    ensures Owned(e, i)
  {
  }

  lemma SubmitOwns(d: Disk, e: Disk, h: nat, r: Req, g: nat)
    requires g in d.reqs && g != h && OwnsAll(d, g) && h !in d.owner && r.d1 !in d.owner && r.d2 !in d.owner
    requires e.owner == d.owner[h := h][r.d1 := h][r.d2 := h] && e.reqs == d.reqs[h := r]
    ensures OwnsAll(e, g)
  {
  }

  lemma SubmitFree(d: Disk, h: nat, d1: nat, d2: nat, b: nat, op: BlkReq, i: nat)
    requires Sized(d) && |d.availRing| == NUM && h < NUM && d1 < NUM && d2 < NUM && i < NUM && FreeAt(d, i)
    ensures FreeAt(Submitted(d, h, d1, d2, b, op), i)
  {
  }

  lemma SubmitOwner(d: Disk, h: nat, d1: nat, d2: nat, b: nat, op: BlkReq)
    requires Sized(d) && |d.availRing| == NUM && OwnerOk(d) && Three(d, h, d1, d2)
    ensures OwnerOk(Submitted(d, h, d1, d2, b, op)) && h !in d.reqs
  {
    hide FreeAt, Owned, OwnsAll;
    var e := Submitted(d, h, d1, d2, b, op);
    var r := e.reqs[h];
    FreshHead(d, h);
    FreshHead(d, d1);
    FreshHead(d, d2);
    forall i: nat | i < NUM ensures FreeAt(e, i) { SubmitFree(d, h, d1, d2, b, op, i); }
    forall i: nat | i in e.owner ensures Owned(e, i) {
      if PartOf(h, r, i) { NewPart(e, h, i); } else { SubmitOwned(d, e, h, r, i); }
    }
    forall g: nat | g in e.reqs ensures OwnsAll(e, g) {
      if g == h { NewOwner(e, h); } else { SubmitOwns(d, e, h, r, g); }
    }
  }

  lemma NewPart(e: Disk, h: nat, i: nat)
    requires i < NUM && i in e.owner && e.owner[i] == h && h in e.reqs && PartOf(h, e.reqs[h], i)
    ensures Owned(e, i)
  {
  }

  lemma NewOwner(e: Disk, h: nat)
    requires h in e.reqs && Belongs(e, h, h) && Belongs(e, h, e.reqs[h].d1) && Belongs(e, h, e.reqs[h].d2)
    ensures OwnsAll(e, h)
  {
  }

  lemma SubmitQueues(d: Disk, h: nat, d1: nat, d2: nat, b: nat, op: BlkReq)
    requires Sized(d) && |d.availRing| == NUM && QueuesOk(d) && h < NUM && d1 < NUM && d2 < NUM && h !in d.reqs
    requires |d.offered| < NUM
    ensures QueuesOk(Submitted(d, h, d1, d2, b, op))
  {
    hide RingOk;
    var e := Submitted(d, h, d1, d2, b, op);
    RingPut(d.availRing, NUM, WRAP, d.devIdx, d.availIdx, d.offered, h);
    assert !InPhase(d, h, Offered) && !InPhase(d, h, Used);
    forall g ensures g in e.offered <==> InPhase(e, g, Offered) {
      assert g in d.offered <==> InPhase(d, g, Offered);
    }
    forall g ensures g in e.used <==> InPhase(e, g, Used) {
      assert g in d.used <==> InPhase(d, g, Used);
    }
    assert NoRepeats(e.offered) by {
      assert h !in d.offered;
      forall i, j | 0 <= i < j < |e.offered| ensures e.offered[i] != e.offered[j] {
        assert e.offered[i] in d.offered;
      }
    }
  }

  /** The caller has the buffer locked, so no other request is about it. */
  predicate Unrequested(d: Disk, b: nat) { forall g :: g in d.reqs ==> d.reqs[g].b != b }

  lemma SubmitRest(d: Disk, h: nat, d1: nat, d2: nat, b: nat, op: BlkReq)
    requires Sized(d) && |d.availRing| == NUM && BuffersOk(d) && CountersOk(d) && h < NUM && d1 < NUM && d2 < NUM
    requires h !in d.reqs && Unrequested(d, b)
    ensures BuffersOk(Submitted(d, h, d1, d2, b, op)) && CountersOk(Submitted(d, h, d1, d2, b, op))
  {
    assert h !in d.active;
  }

  lemma SubmitInv(d: Disk, h: nat, d1: nat, d2: nat, b: nat, op: BlkReq)
    requires Inv(d) && Three(d, h, d1, d2) && Unrequested(d, b)
    ensures |d.availRing| == NUM && d.availIdx % NUM < NUM && Inv(Submitted(d, h, d1, d2, b, op))
  {
    hide Chains, OwnerOk, QueuesOk, BuffersOk, CountersOk, ChainOk;
    QueueSizes(d);
    RingsHaveRoom(d);
    SubmitChains(d, h, d1, d2, b, op);
    SubmitOwner(d, h, d1, d2, b, op);
    SubmitQueues(d, h, d1, d2, b, op);
    SubmitRest(d, h, d1, d2, b, op);
  }

  lemma QueueSizes(d: Disk)
    requires QueuesOk(d)
    ensures |d.availRing| == NUM && |d.usedRing| == NUM && d.devIdx < WRAP && d.availIdx < WRAP && d.seenIdx < WRAP
    ensures d.usedIdx < WRAP
    ensures (d.devIdx == d.availIdx <==> d.offered == []) && (d.seenIdx == d.usedIdx <==> d.used == [])
  {
    hide RingOk;
    RingTests(d.availRing, NUM, WRAP, d.devIdx, d.availIdx, d.offered);
    RingTests(d.usedRing, NUM, WRAP, d.seenIdx, d.usedIdx, d.used);
  }

  // ---------------------------------------------------------------- moving a request on

  function Moved(d: Disk, h: nat, p: Phase): Disk
    requires h in d.reqs
  {
    d.(reqs := d.reqs[h := d.reqs[h].(phase := p)])
  }

  /** Only the phase of one request changes. */
  lemma MovedOwner(d: Disk, e: Disk, h: nat, p: Phase)
    requires Sized(d) && Sized(e) && OwnerOk(d) && h in d.reqs
    requires e.free == d.free && e.desc == d.desc && e.owner == d.owner && e.reqs == d.reqs[h := d.reqs[h].(phase := p)]
    ensures OwnerOk(e)
  {
    forall i: nat | i < NUM ensures FreeAt(e, i) { assert FreeAt(d, i); }
    forall i: nat | i in e.owner ensures Owned(e, i) { assert Owned(d, i); }
    forall g: nat | g in e.reqs ensures OwnsAll(e, g) { assert OwnsAll(d, g); }
  }

  lemma MovedChains(d: Disk, e: Disk, h: nat, p: Phase)
    requires Sized(d) && Sized(e) && Chains(d) && h in d.reqs
    requires e.desc == d.desc && e.ops == d.ops && e.infoB == d.infoB && e.reqs == d.reqs[h := d.reqs[h].(phase := p)]
    requires forall g :: 0 <= g < NUM && g != h ==> e.status[g] == d.status[g]
    requires h < NUM ==> StatusOk(p, e.status[h])
    ensures Chains(e)
  {
    forall g | g in e.reqs ensures ChainOk(e, g, e.reqs[g]) { assert ChainOk(d, g, d.reqs[g]); }
  }

  /** The head of a queue without repeats leaves it. */
  lemma Popped(q: seq<nat>, h: nat)
    requires NoRepeats(q) && q != []
    ensures NoRepeats(q[1..]) && (h in q[1..] <==> h in q && h != q[0])
  {
    if h in q && h != q[0] {
      var i :| 0 <= i < |q| && q[i] == h;
      assert q[1..][i - 1] == h;
    }
    if h in q[1..] {
      var i :| 0 <= i < |q| - 1 && q[1..][i] == h;
      assert q[i + 1] == h;
    }
  }

  lemma Pushed(q: seq<nat>, x: nat, h: nat)
    requires NoRepeats(q) && x !in q
    ensures NoRepeats(q + [x]) && (h in q + [x] <==> h in q || h == x)
  {
    forall i, j | 0 <= i < j < |q + [x]| ensures (q + [x])[i] != (q + [x])[j] { assert (q + [x])[i] in q; }
  }

  // ---------------------------------------------------------------- the device

  /** The device takes the next entry of the available ring. */
  function Fetched(d: Disk): Disk
    requires d.offered != [] && d.offered[0] in d.reqs
  {
    Moved(d, d.offered[0], Taken).(devIdx := (d.devIdx + 1) % WRAP, offered := d.offered[1..])
  }

  lemma FirstOffered(d: Disk)
    requires QueuesOk(d) && d.offered != []
    ensures InPhase(d, d.offered[0], Offered) && |d.availRing| == NUM && d.availRing[d.devIdx % NUM] == d.offered[0]
  {
    hide RingOk;
    RingTests(d.availRing, NUM, WRAP, d.devIdx, d.availIdx, d.offered);
    RingGet(d.availRing, NUM, WRAP, d.devIdx, d.availIdx, d.offered);
    assert d.offered[0] in d.offered;
  }

  lemma FetchQueues(d: Disk)
    requires QueuesOk(d) && d.offered != [] && InPhase(d, d.offered[0], Offered)
    ensures QueuesOk(Fetched(d))
  {
    hide RingOk;
    var e, h := Fetched(d), d.offered[0];
    RingGet(d.availRing, NUM, WRAP, d.devIdx, d.availIdx, d.offered);
    forall g ensures g in e.offered <==> InPhase(e, g, Offered) {
      Popped(d.offered, g);
      assert g in d.offered <==> InPhase(d, g, Offered);
    }
    forall g ensures g in e.used <==> InPhase(e, g, Used) {
      assert g in d.used <==> InPhase(d, g, Used);
    }
    Popped(d.offered, h);
  }

  lemma FetchInv(d: Disk)
    requires Inv(d) && d.offered != [] && InPhase(d, d.offered[0], Offered)
    ensures Inv(Fetched(d))
  {
    hide Chains, OwnerOk, QueuesOk, ChainOk;
    var e, h := Fetched(d), d.offered[0];
    FetchQueues(d);
    MovedOwner(d, e, h, Taken);
    StatusAt(d, h);
    MovedChains(d, e, h, Taken);
  }

  lemma StatusAt(d: Disk, h: nat)
    requires Sized(d) && Chains(d) && h in d.reqs
    ensures h < NUM && StatusOk(d.reqs[h].phase, d.status[h])
    ensures d.infoB[h] == Some(d.reqs[h].b)
  {
    assert ChainOk(d, h, d.reqs[h]);
  }

  function Lookup(m: map<nat, Block>, k: nat): Block { if k in m then m[k] else [] }

  /** The device carries out the request at head h, which it has taken before. */
  function Completed(d: Disk, h: nat, st: nat): Disk
    requires Sized(d) && h in d.reqs && h < NUM && |d.usedRing| == NUM
  {
    var r := d.reqs[h];
    Moved(d, h, Used).(
      status := d.status[h := st], usedRing := d.usedRing[d.usedIdx % NUM := h], usedIdx := (d.usedIdx + 1) % WRAP,
      used := d.used + [h],
      data := if st != 0 || r.op.write then d.data else d.data[r.b := Lookup(d.sectors, r.op.sector)],
      sectors := if st == 0 && r.op.write then d.sectors[r.op.sector := Lookup(d.data, r.b)] else d.sectors)
  }

  lemma CompleteQueues(d: Disk, h: nat, st: nat)
    requires Sized(d) && QueuesOk(d) && InPhase(d, h, Taken) && h < NUM && |d.usedRing| == NUM && |d.used| < NUM
    ensures QueuesOk(Completed(d, h, st))
  {
    hide RingOk;
    var e := Completed(d, h, st);
    RingPut(d.usedRing, NUM, WRAP, d.seenIdx, d.usedIdx, d.used, h);
    assert h !in d.used by { assert !InPhase(d, h, Used); }
    forall g ensures g in e.offered <==> InPhase(e, g, Offered) {
      assert g in d.offered <==> InPhase(d, g, Offered);
    }
    forall g ensures g in e.used <==> InPhase(e, g, Used) {
      Pushed(d.used, h, g);
      assert g in d.used <==> InPhase(d, g, Used);
    }
    Pushed(d.used, h, h);
  }

  lemma CompleteInv(d: Disk, h: nat, st: nat)
    requires Inv(d) && InPhase(d, h, Taken)
    ensures h < NUM && |d.usedRing| == NUM && Inv(Completed(d, h, st))
  {
    hide Chains, OwnerOk, QueuesOk, ChainOk;
    StatusAt(d, h);
    QueueSizes(d);
    RingsHaveRoom(d);
    var e := Completed(d, h, st);
    CompleteQueues(d, h, st);
    MovedOwner(d, e, h, Used);
    MovedChains(d, e, h, Used);
  }

  // ---------------------------------------------------------------- the interrupt handler

  /** One round of the loop in virtio_disk_intr(). */
  function Reaped(d: Disk): Disk
    requires d.used != [] && d.used[0] in d.reqs && d.inflight > 0
  {
    var h := d.used[0];
    Moved(d, h, Done).(
      busy := d.busy - {d.reqs[h].b}, inflight := d.inflight - 1, completes := d.completes + 1,
      seenIdx := (d.seenIdx + 1) % WRAP, used := d.used[1..], active := d.active - {h})
  }

  lemma FirstUsed(d: Disk)
    requires QueuesOk(d) && d.used != []
    ensures InPhase(d, d.used[0], Used) && |d.usedRing| == NUM && d.usedRing[d.seenIdx % NUM] == d.used[0]
  {
    hide RingOk;
    RingTests(d.usedRing, NUM, WRAP, d.seenIdx, d.usedIdx, d.used);
    RingGet(d.usedRing, NUM, WRAP, d.seenIdx, d.usedIdx, d.used);
    assert d.used[0] in d.used;
  }

  lemma ReapQueues(d: Disk)
    requires QueuesOk(d) && d.used != [] && InPhase(d, d.used[0], Used) && d.inflight > 0
    ensures QueuesOk(Reaped(d))
  {
    hide RingOk;
    var e, h := Reaped(d), d.used[0];
    RingGet(d.usedRing, NUM, WRAP, d.seenIdx, d.usedIdx, d.used);
    forall g ensures g in e.offered <==> InPhase(e, g, Offered) {
      assert g in d.offered <==> InPhase(d, g, Offered);
    }
    forall g ensures g in e.used <==> InPhase(e, g, Used) {
      Popped(d.used, g);
      assert g in d.used <==> InPhase(d, g, Used);
    }
    Popped(d.used, h);
  }

  lemma ReapRest(d: Disk)
    requires BuffersOk(d) && CountersOk(d) && d.used != [] && InPhase(d, d.used[0], Used)
    ensures d.inflight > 0 && BuffersOk(Reaped(d)) && CountersOk(Reaped(d))
  {
    var h := d.used[0];
    assert h in d.active;
    assert |d.active - {h}| == |d.active| - 1;
  }

  lemma ReapInv(d: Disk)
    requires Inv(d) && d.used != [] && InPhase(d, d.used[0], Used)
    ensures d.used[0] < |d.status| && d.inflight > 0 && (d.status[d.used[0]] == 0 ==> Inv(Reaped(d)))
  {
    hide Chains, OwnerOk, QueuesOk, ChainOk, BuffersOk, CountersOk;
    ReapRest(d);
    var e, h := Reaped(d), d.used[0];
    ReapQueues(d);
    MovedOwner(d, e, h, Done);
    StatusAt(d, h);
    if d.status[h] == 0 {
      MovedChains(d, e, h, Done);
    }
  }

  // ---------------------------------------------------------------- freeing a finished chain

  function Released(d: Disk, h: nat): Disk
    requires Sized(d) && h in d.reqs && h < NUM && d.reqs[h].d1 < NUM && d.reqs[h].d2 < NUM
  {
    var r := d.reqs[h];
    d.(infoB := d.infoB[h := None],
       free := d.free[h := true][r.d1 := true][r.d2 := true],
       desc := d.desc[h := Zero()][r.d1 := Zero()][r.d2 := Zero()],
       reqs := d.reqs - {h}, owner := d.owner - {h, r.d1, r.d2})
  }

  /** Two chains have no descriptor in common. */
  predicate Apart(h: nat, r: Req, g: nat, s: Req) {
    && h != g && h != s.d1 && h != s.d2
    && r.d1 != g && r.d1 != s.d1 && r.d1 != s.d2
    && r.d2 != g && r.d2 != s.d1 && r.d2 != s.d2
  }

  lemma OwnersApart(d: Disk, h: nat, g: nat)
    requires h in d.reqs && g in d.reqs && h != g && OwnsAll(d, h) && OwnsAll(d, g)
    ensures Apart(h, d.reqs[h], g, d.reqs[g])
  {
  }

  lemma ReleaseChain(d: Disk, h: nat, g: nat)
    requires Sized(d) && h in d.reqs && h < NUM && d.reqs[h].d1 < NUM && d.reqs[h].d2 < NUM
    requires g in d.reqs && ChainOk(d, g, d.reqs[g]) && Apart(h, d.reqs[h], g, d.reqs[g])
    ensures ChainOk(Released(d, h), g, d.reqs[g])
  {
  }

  lemma ReleaseChains(d: Disk, h: nat)
    requires Sized(d) && Chains(d) && OwnerOk(d) && h in d.reqs && h < NUM && d.reqs[h].d1 < NUM && d.reqs[h].d2 < NUM
    ensures Chains(Released(d, h))
  {
    hide ChainOk, FreeAt, Owned, OwnsAll, Apart;
    var e := Released(d, h);
    assert OwnsAll(d, h);
    forall g | g in e.reqs ensures ChainOk(e, g, e.reqs[g]) {
      OwnersApart(d, h, g);
      ReleaseChain(d, h, g);
    }
  }

  lemma ReleaseFree(d: Disk, h: nat, i: nat)
    requires Sized(d) && h in d.reqs && h < NUM && d.reqs[h].d1 < NUM && d.reqs[h].d2 < NUM && i < NUM && FreeAt(d, i)
    ensures FreeAt(Released(d, h), i)
  {
  }

  lemma ReleaseOwned(d: Disk, e: Disk, h: nat, i: nat)
    requires h in d.reqs && i in d.owner && Owned(d, i) && !PartOf(h, d.reqs[h], i)
    requires e.reqs == d.reqs - {h} && e.owner == d.owner - {h, d.reqs[h].d1, d.reqs[h].d2}
    ensures i in e.owner && Owned(e, i)
  {
  }

  lemma ReleaseOwns(d: Disk, e: Disk, h: nat, g: nat)
    requires h in d.reqs && g in d.reqs && OwnsAll(d, g) && Apart(h, d.reqs[h], g, d.reqs[g])
    requires e.reqs == d.reqs - {h} && e.owner == d.owner - {h, d.reqs[h].d1, d.reqs[h].d2}
    ensures OwnsAll(e, g)
  {
  }

  lemma ThreeLess(m: map<nat, nat>, a: nat, b: nat, c: nat)
    requires a in m && b in m && c in m && a != b && a != c && b != c
    ensures |m - {a, b, c}| == |m| - 3
  {
    assert (m - {a, b, c}).Keys == m.Keys - {a, b, c};
    assert {a, b, c} <= m.Keys && |{a, b, c}| == 3;
  }

  lemma ReleaseOwner(d: Disk, h: nat)
    requires Sized(d) && Chains(d) && OwnerOk(d) && h in d.reqs && h < NUM && d.reqs[h].d1 < NUM && d.reqs[h].d2 < NUM
    ensures OwnerOk(Released(d, h))
  {
    hide ChainOk, FreeAt, Owned, OwnsAll, Apart, Chains;
    var e, r := Released(d, h), d.reqs[h];
    ChainParts(d, h);
    forall i: nat | i < NUM ensures FreeAt(e, i) { ReleaseFree(d, h, i); }
    forall i: nat | i in e.owner ensures Owned(e, i) { ReleaseOwned(d, e, h, i); }
    forall g: nat | g in e.reqs ensures OwnsAll(e, g) {
      OwnersApart(d, h, g);
      ReleaseOwns(d, e, h, g);
    }
    ThreeLess(d.owner, h, r.d1, r.d2);
    assert e.reqs.Keys == d.reqs.Keys - {h};
  }

  lemma ChainParts(d: Disk, h: nat)
    requires Sized(d) && Chains(d) && OwnerOk(d) && h in d.reqs
    ensures var r := d.reqs[h];
            && h != r.d1 && h != r.d2 && r.d1 != r.d2 && h in d.owner && r.d1 in d.owner && r.d2 in d.owner
  {
    assert ChainOk(d, h, d.reqs[h]) && OwnsAll(d, h);
  }

  lemma ReleaseInv(d: Disk, h: nat)
    requires Inv(d) && InPhase(d, h, Done)
    ensures h < NUM && d.reqs[h].d1 < NUM && d.reqs[h].d2 < NUM && Inv(Released(d, h))
  {
    hide Chains, OwnerOk, QueuesOk, ChainOk, BuffersOk;
    NotFree(d, h);
    ReleaseChains(d, h);
    ReleaseOwner(d, h);
    ReleaseQueues(d, h);
    ReleaseBuffers(d, h);
  }

  lemma ReleaseBuffers(d: Disk, h: nat)
    requires Sized(d) && BuffersOk(d) && InPhase(d, h, Done) && h < NUM && d.reqs[h].d1 < NUM && d.reqs[h].d2 < NUM
    ensures BuffersOk(Released(d, h))
  {
  }

  lemma ReleaseQueues(d: Disk, h: nat)
    requires Sized(d) && QueuesOk(d) && InPhase(d, h, Done) && h < NUM && d.reqs[h].d1 < NUM && d.reqs[h].d2 < NUM
    ensures QueuesOk(Released(d, h))
  {
    hide RingOk;
    var e := Released(d, h);
    forall g ensures g in e.offered <==> InPhase(e, g, Offered) {
      assert g in d.offered <==> InPhase(d, g, Offered);
    }
    forall g ensures g in e.used <==> InPhase(e, g, Used) {
      assert g in d.used <==> InPhase(d, g, Used);
    }
  }

  // ---------------------------------------------------------------- when there is room

  /** Some three descriptors are free. */
  ghost predicate Room(free: seq<bool>)
    requires |free| == NUM
  {
    exists a, b, c :: 0 <= a < b < c < NUM && free[a] && free[b] && free[c]
  }

  ghost function FreeSet(d: Disk): (s: set<nat>)
    requires Sized(d)
  {
    Below(NUM) - d.owner.Keys
  }

  lemma FreeCount(d: Disk)
    requires Sized(d) && OwnerOk(d)
    ensures |FreeSet(d)| == NUM - 3 * |d.reqs| && forall i: nat :: i in FreeSet(d) <==> i < NUM && d.free[i]
  {
    hide OwnsAll, Below;
    forall i: nat ensures i in FreeSet(d) <==> i < NUM && d.free[i] {
      if i < NUM { assert FreeAt(d, i); }
    }
    forall i: nat | i in d.owner.Keys ensures i in Below(NUM) { assert Owned(d, i); }
    assert d.owner.Keys <= Below(NUM);
    BelowSize(NUM);
    assert |Below(NUM) - d.owner.Keys| == |Below(NUM)| - |d.owner.Keys|;
  }

  lemma PickThree(s: set<nat>) returns (a: nat, b: nat, c: nat)
    requires |s| >= 3
    ensures a in s && b in s && c in s && a != b && a != c && b != c
  {
    a :| a in s;
    var t := s - {a};
    assert |t| >= 2;
    b :| b in t;
    var u := t - {b};
    assert |u| >= 1;
    c :| c in u;
  }

  lemma Sorted(free: seq<bool>, a: nat, b: nat, c: nat)
    requires |free| == NUM && a < NUM && b < NUM && c < NUM && a != b && a != c && b != c && free[a] && free[b]
    requires free[c]
    ensures Room(free)
  {
    var x := if a < b && a < c then a else if b < c then b else c;
    var z := if a > b && a > c then a else if b > c then b else c;
    var y := a + b + c - x - z;
    assert x < y < z;
  }

  lemma NoRoom(free: seq<bool>, s: set<nat>)
    requires |free| == NUM && |s| <= 2 && forall i: nat :: i < NUM && free[i] ==> i in s
    ensures !Room(free)
  {
    if a: nat, b: nat, c: nat :| a < b < c < NUM && free[a] && free[b] && free[c] {
      Subset({a, b, c}, s);
    }
  }

  /** There is room for another request exactly if fewer than two are outstanding. */
  lemma RoomIff(d: Disk)
    requires Sized(d) && OwnerOk(d)
    ensures Room(d.free) <==> |d.reqs| < 2
  {
    hide OwnerOk, Room, FreeSet;
    AtMostTwo(d);
    FreeCount(d);
    if |d.reqs| < 2 {
      var a, b, c := PickThree(FreeSet(d));
      Sorted(d.free, a, b, c);
    } else {
      NoRoom(d.free, FreeSet(d));
    }
  }

  lemma OnlyThese(free: seq<bool>, a: nat, b: nat)
    requires |free| == NUM && a < NUM && b < NUM && forall k :: 0 <= k < NUM && free[k] ==> k == a || k == b
    ensures !Room(free)
  {
  }

  lemma FreeCleared(d: Disk)
    requires Sized(d) && OwnerOk(d)
    ensures forall i :: 0 <= i < NUM && d.free[i] ==> d.desc[i] == Zero()
  {
    forall i: nat | i < NUM && d.free[i] ensures d.desc[i] == Zero() { assert FreeAt(d, i); }
  }

  lemma ChainAt(d: Disk, h: nat)
    requires Sized(d) && Chains(d) && h in d.reqs
    ensures ChainOk(d, h, d.reqs[h])
  {
  }

  lemma ReapReady(d: Disk)
    requires Inv(d) && d.seenIdx != d.usedIdx
    ensures d.used != [] && InPhase(d, d.used[0], Used) && |d.usedRing| == NUM
    ensures d.usedRing[d.seenIdx % NUM] == d.used[0]
    ensures Sized(d) && d.used[0] < NUM && d.infoB[d.used[0]] == Some(d.reqs[d.used[0]].b)
    ensures d.inflight > 0 && (d.status[d.used[0]] == 0 ==> Inv(Reaped(d)))
  {
    hide Chains, OwnerOk, QueuesOk, BuffersOk, CountersOk, ChainOk;
    QueueSizes(d);
    FirstUsed(d);
    StatusAt(d, d.used[0]);
    ReapInv(d);
  }

  lemma UsedLeft(d: Disk)
    requires Inv(d)
    ensures d.seenIdx == d.usedIdx <==> d.used == []
  {
    hide Chains, OwnerOk, QueuesOk, BuffersOk, CountersOk;
    QueueSizes(d);
  }

  lemma FetchReady(d: Disk)
    requires Inv(d) && d.devIdx != d.availIdx
    ensures d.offered != [] && InPhase(d, d.offered[0], Offered) && |d.availRing| == NUM
    ensures d.availRing[d.devIdx % NUM] == d.offered[0]
    ensures Inv(Fetched(d))
  {
    hide Chains, OwnerOk, QueuesOk, BuffersOk, CountersOk;
    QueueSizes(d);
    FirstOffered(d);
    FetchInv(d);
  }

  lemma CompleteReady(d: Disk, h: nat, st: nat)
    requires Inv(d) && InPhase(d, h, Taken)
    ensures Sized(d) && h < NUM && |d.usedRing| == NUM && ChainOk(d, h, d.reqs[h]) && Inv(Completed(d, h, st))
  {
    hide Chains, OwnerOk, QueuesOk, BuffersOk, CountersOk;
    QueueSizes(d);
    ChainAt(d, h);
    CompleteInv(d, h, st);
  }

  lemma SubmitReady(d: Disk)
    requires Inv(d)
    ensures Sized(d) && OwnerOk(d) && |d.availRing| == NUM && (Room(d.free) <==> |d.reqs| < 2)
    ensures forall i :: 0 <= i < NUM && d.free[i] ==> d.desc[i] == Zero()
  {
    hide Chains, OwnerOk, QueuesOk, BuffersOk, CountersOk;
    QueueSizes(d);
    RoomIff(d);
    FreeCleared(d);
  }

  lemma FinishReady(d: Disk, h: nat)
    requires Inv(d) && h in d.reqs && d.reqs[h].b !in d.busy
    ensures Sized(d) && h < NUM && d.reqs[h].d1 < NUM && d.reqs[h].d2 < NUM && Linked(d.desc, h, d.reqs[h])
    ensures d.reqs[h].phase == Done && !d.free[h] && !d.free[d.reqs[h].d1] && !d.free[d.reqs[h].d2]
    ensures Inv(Released(d, h))
  {
    hide Chains, OwnerOk, QueuesOk, CountersOk;
    assert InPhase(d, h, Done);
    ChainAt(d, h);
    NotFree(d, h);
    ReleaseInv(d, h);
  }

  // ---------------------------------------------------------------- the code

  class VirtioDisk {
    var free: seq<bool>
    var desc: seq<Desc>
    var ops: seq<BlkReq>
    var infoB: seq<Option<nat>>
    var status: seq<nat>
    var availRing: seq<nat>
    var availIdx: nat
    var devIdx: nat
    var usedRing: seq<nat>
    var usedIdx: nat
    var seenIdx: nat
    var busy: set<nat>
    var data: map<nat, Block>
    var sectors: map<nat, Block>
    var submits: nat
    var completes: nat
    var inflight: nat
    ghost var reqs: map<nat, Req>
    ghost var owner: map<nat, nat>
    ghost var offered: seq<nat>
    ghost var used: seq<nat>
    ghost var active: set<nat>

    ghost function D(): Disk
      reads this
    {
      Disk(free, desc, ops, infoB, status, availRing, availIdx, devIdx, usedRing, usedIdx, seenIdx, busy, data, sectors,
           submits, completes, inflight, reqs, owner, offered, used, active)
    }

    /** virtio_disk_init(). */
    constructor (sectors: map<nat, Block>, data: map<nat, Block>)
      ensures Inv(D()) && reqs == map[] && offered == used == [] && submits == 0 && this.sectors == sectors
      ensures this.data == data
    {
      free, desc, ops := seq(NUM, _ => true), seq(NUM, _ => Zero()), seq(NUM, _ => BlkReq(false, 0));
      infoB, status := seq(NUM, _ => None), seq(NUM, _ => 0);
      availRing, availIdx, devIdx := seq(NUM, _ => 0), 0, 0;
      usedRing, usedIdx, seenIdx := seq(NUM, _ => 0), 0, 0;
      busy, this.data, this.sectors := {}, data, sectors;
      submits, completes, inflight := 0, 0, 0;
      reqs, owner, offered, used, active := map[], map[], [], [], {};
    }

    /** alloc_desc(): the lowest free descriptor, or -1. */
    method AllocDesc() returns (i: int)
      requires |free| == NUM
      modifies this`free
      ensures i == -1 ==> free == old(free) && forall k :: 0 <= k < NUM ==> !free[k]
      ensures i != -1 ==> 0 <= i < NUM && old(free)[i] && free == old(free)[i := false]
    {
      i := 0;
      while i < NUM
        invariant 0 <= i <= NUM && free == old(free) && forall k :: 0 <= k < i ==> !free[k]
      {
        if free[i] {
          free := free[i := false];
          return;
        }
        i := i + 1;
      }
      return -1;
    }

    /** free_desc(). */
    method FreeDesc(i: nat) returns (panicked: bool)
      requires |free| == |desc| == NUM
      modifies this`free, this`desc
      ensures panicked <==> i >= NUM || old(free)[i]
      ensures panicked ==> free == old(free) && desc == old(desc)
      ensures !panicked ==> free == old(free)[i := true] && desc == old(desc)[i := Zero()]
    {
      if i >= NUM || free[i] {
        return true;
      }
      desc := desc[i := Desc(Null, 0, 0, 0)];
      free := free[i := true];
      return false;
    }

    /** alloc3_desc(): three descriptors, or none if there are not three. */
    method Alloc3() returns (ok: bool, h: nat, d1: nat, d2: nat)
      requires |free| == |desc| == NUM && forall i :: 0 <= i < NUM && free[i] ==> desc[i] == Zero()
      modifies this`free, this`desc
      ensures desc == old(desc) && (ok <==> Room(old(free)))
      ensures !ok ==> free == old(free)
      ensures ok ==> h < NUM && d1 < NUM && d2 < NUM && h != d1 && h != d2 && d1 != d2
      ensures ok ==>
              old(free)[h] && old(free)[d1] && old(free)[d2] && free == old(free)[h := false][d1 := false][d2 := false]
    {
      ghost var f := free;
      h, d1, d2 := 0, 0, 0;
      var i0 := AllocDesc();
      if i0 < 0 {
        return false, h, d1, d2;
      }
      var i1 := AllocDesc();
      if i1 < 0 {
        var _ := FreeDesc(i0);
        assert desc == old(desc) && free == f;
        OnlyThese(f, i0, i0);
        return false, h, d1, d2;
      }
      var i2 := AllocDesc();
      if i2 < 0 {
        var _ := FreeDesc(i0);
        var _ := FreeDesc(i1);
        assert desc == old(desc) && free == f;
        OnlyThese(f, i0, i1);
        return false, h, d1, d2;
      }
      Sorted(f, i0, i1, i2);
      return true, i0, i1, i2;
    }

    /** virtio_disk_rw() up to the wait: the request is in the queue, or nothing has changed
        because two others are outstanding. */
    method Submit(b: nat, write: bool, blockno: nat) returns (ok: bool, h: nat)
      requires Inv(D()) && Unrequested(D(), b)
      modifies this
      ensures Inv(D()) && (ok <==> |old(reqs)| < 2)
      ensures !ok ==> D() == old(D())
      ensures ok ==> h !in old(reqs) && h in reqs && reqs == old(reqs)[h := reqs[h]] && busy == old(busy) + {b}
      ensures ok ==> reqs[h].b == b && reqs[h].op == BlkReq(write, blockno * 2) && reqs[h].phase == Offered
      ensures ok ==> h < |old(status)| && status == old(status)[h := 255] && offered == old(offered) + [h]
      ensures used == old(used) && data == old(data) && sectors == old(sectors)
    {
      hide Chains, OwnerOk, QueuesOk, BuffersOk, CountersOk, Inv, ChainOk, Room, Unrequested, Zero;
      ghost var d := D();
      var op := BlkReq(write, blockno * 2);
      var d1, d2;
      SubmitReady(d);
      ok, h, d1, d2 := Alloc3();
      if !ok {
        return;
      }
      SubmitInv(d, h, d1, d2, b, op);
      FreshHead(d, h);
      Enqueue(h, d1, d2, b, op, d);
    }

    method Enqueue(h: nat, d1: nat, d2: nat, b: nat, op: BlkReq, ghost d: Disk)
      requires Sized(d) && |d.availRing| == NUM && h < NUM && d1 < NUM && d2 < NUM
      requires D() == d.(free := d.free[h := false][d1 := false][d2 := false])
      modifies this
      ensures D() == Submitted(d, h, d1, d2, b, op)
    {
      Format(h, d1, d2, b, op);
      Publish(h, d1, d2, b, op);
    }

    /** Filling in the three descriptors. */
    method Format(h: nat, d1: nat, d2: nat, b: nat, op: BlkReq)
      requires |desc| == |ops| == |infoB| == |status| == NUM && h < NUM && d1 < NUM && d2 < NUM
      modifies this`desc, this`ops, this`infoB, this`status, this`busy
      ensures desc == old(desc)[h := HeadDesc(h, d1)][d1 := DataDesc(b, op.write, d2)][d2 := StatusDesc(h)]
      ensures ops == old(ops)[h := op] && infoB == old(infoB)[h := Some(b)] && status == old(status)[h := 255]
      ensures busy == old(busy) + {b}
    {
      ops := ops[h := op];
      desc := desc[h := Desc(OpOf(h), 16, F_NEXT, d1)];
      desc := desc[d1 := Desc(DataOf(b), BSIZE, if op.write then F_NEXT else F_WRITE + F_NEXT, d2)];
      status := status[h := 255];
      desc := desc[d2 := Desc(StatusOf(h), 1, F_WRITE, 0)];
      busy := busy + {b};
      infoB := infoB[h := Some(b)];
    }

    /** Telling the device. */
    method Publish(h: nat, ghost d1: nat, ghost d2: nat, ghost b: nat, ghost op: BlkReq)
      requires |availRing| == NUM
      modifies this`availRing, this`availIdx, this`inflight, this`submits, this`reqs, this`owner, this`offered,
               this`active
      ensures availRing == old(availRing)[old(availIdx) % NUM := h] && availIdx == (old(availIdx) + 1) % WRAP
      ensures inflight == old(inflight) + 1 && submits == old(submits) + 1
      ensures reqs == old(reqs)[h := Req(d1, d2, b, op, Offered)] && owner == old(owner)[h := h][d1 := h][d2 := h]
      ensures offered == old(offered) + [h] && active == old(active) + {h}
    {
      availRing := availRing[availIdx % NUM := h];
      availIdx := (availIdx + 1) % WRAP;
      inflight := inflight + 1;
      submits := submits + 1;
      reqs := reqs[h := Req(d1, d2, b, op, Offered)];
      owner := owner[h := h][d1 := h][d2 := h];
      offered := offered + [h];
      active := active + {h};
    }

    /** The device takes the next available entry: the oldest offered request. */
    method Fetch() returns (h: nat)
      requires Inv(D()) && devIdx != availIdx
      modifies this`devIdx, this`reqs, this`offered
      ensures old(offered) != [] && h == old(offered)[0] && InPhase(old(D()), h, Offered) && Inv(D())
      ensures D() == Fetched(old(D()))
    {
      hide Chains, OwnerOk, QueuesOk, BuffersOk, CountersOk, Inv;
      FetchReady(D());
      h := availRing[devIdx % NUM];
      devIdx := (devIdx + 1) % WRAP;
      reqs := reqs[h := reqs[h].(phase := Taken)];
      offered := offered[1..];
    }

    /** The device carries out a request it has taken.  Whatever has happened since it was
        submitted, the chain still leads it to that request's operation, buffer and status. */
    method Complete(h: nat, st: nat)
      requires Inv(D()) && InPhase(D(), h, Taken)
      modifies this`status, this`data, this`sectors, this`usedRing, this`usedIdx, this`reqs, this`used
      ensures h < NUM && |old(usedRing)| == NUM && Inv(D()) && D() == Completed(old(D()), h, st)
    {
      hide Chains, OwnerOk, QueuesOk, BuffersOk, CountersOk, Inv;
      ghost var d := D();
      CompleteReady(d, h, st);
      var d1 := desc[h].next;
      var d2 := desc[d1].next;
      CarryOut(ops[desc[h].addr.i], desc[d1].addr.b, desc[d2].addr.i, h, st);
      assert D() == Completed(d, h, st);
    }

    /** A transfer that is reported good (status 0) moves the data; one reported bad moves none. */
    method CarryOut(op: BlkReq, b: nat, si: nat, h: nat, st: nat)
      requires |status| == |usedRing| == NUM && si < NUM && h in reqs
      modifies this`status, this`data, this`sectors, this`usedRing, this`usedIdx, this`reqs, this`used
      ensures sectors == (if st == 0 && op.write then old(sectors)[op.sector := Lookup(old(data), b)] else old(sectors))
      ensures data == (if st != 0 || op.write then old(data) else old(data)[b := Lookup(old(sectors), op.sector)])
      ensures status == old(status)[si := st] && usedRing == old(usedRing)[old(usedIdx) % NUM := h]
      ensures usedIdx == (old(usedIdx) + 1) % WRAP
      ensures reqs == old(reqs)[h := old(reqs)[h].(phase := Used)] && used == old(used) + [h]
    {
      if st == 0 {
        if op.write {
          sectors := sectors[op.sector := Lookup(data, b)];
        } else {
          data := data[b := Lookup(sectors, op.sector)];
        }
      }
      status := status[si := st];
      usedRing := usedRing[usedIdx % NUM := h];
      usedIdx := (usedIdx + 1) % WRAP;
      reqs := reqs[h := reqs[h].(phase := Used)];
      used := used + [h];
    }

    /** One round of virtio_disk_intr(): it panics exactly if the device reported that request bad,
        and otherwise releases exactly the buffer that submitted it. */
    method IntrRound() returns (panicked: bool)
      requires Inv(D()) && seenIdx != usedIdx
      modifies this`seenIdx, this`busy, this`inflight, this`completes, this`reqs, this`used, this`active
      ensures old(used) != [] && InPhase(old(D()), old(used)[0], Used) && old(inflight) > 0
      ensures old(used)[0] < |old(status)| && (panicked <==> old(status)[old(used)[0]] != 0)
      ensures panicked ==> D() == old(D())
      ensures !panicked ==> Inv(D()) && D() == Reaped(old(D())) && busy == old(busy) - {old(reqs)[old(used)[0]].b}
    {
      hide Chains, OwnerOk, QueuesOk, BuffersOk, CountersOk, Inv, ChainOk;
      ghost var d := D();
      ReapReady(d);
      var id := usedRing[seenIdx % NUM];
      if status[id] != 0 {
        return true; // panic("virtio_disk_intr status")
      }
      Settle(id);
      assert D() == Reaped(d);
      return false;
    }

    /** Releasing the buffer of the request at id, and the counters. */
    method Settle(id: nat)
      requires |infoB| == NUM && id < NUM && infoB[id].Some? && id in reqs && used != []
      modifies this`seenIdx, this`busy, this`inflight, this`completes, this`reqs, this`used, this`active
      ensures busy == old(busy) - {infoB[id].value} && inflight == (if old(inflight) > 0 then old(inflight) - 1 else 0)
      ensures completes == old(completes) + 1 && seenIdx == (old(seenIdx) + 1) % WRAP
      ensures reqs == old(reqs)[id := old(reqs)[id].(phase := Done)] && used == old(used)[1..]
      ensures active == old(active) - {id}
    {
      busy := busy - {infoB[id].value};
      if inflight > 0 {
        inflight := inflight - 1;
      }
      completes := completes + 1;
      seenIdx := (seenIdx + 1) % WRAP;
      reqs := reqs[id := reqs[id].(phase := Done)];
      used := used[1..];
      active := active - {id};
    }

    /** virtio_disk_intr(): sees every used entry once, up to the first that is bad. */
    method Intr() returns (panicked: bool)
      requires Inv(D())
      modifies this`seenIdx, this`busy, this`inflight, this`completes, this`reqs, this`used, this`active
      ensures |used| <= |old(used)| == |used| + completes - old(completes) && used == old(used)[|old(used)| - |used|..]
      ensures if panicked then used != [] && used[0] < |status| && status[used[0]] != 0
              else Inv(D()) && used == [] && seenIdx == usedIdx
    {
      hide Inv;
      UsedLeft(D());
      while seenIdx != usedIdx
        invariant Inv(D()) && |used| <= |old(used)| == |used| + completes - old(completes)
        invariant (seenIdx == usedIdx <==> used == [])
        invariant used == old(used)[|old(used)| - |used|..]
        decreases |used|
      {
        ghost var was := used;
        panicked := IntrRound();
        if panicked {
          return;
        }
        UsedLeft(D());
        assert was[1..] == old(used)[|old(used)| - |used|..];
      }
      panicked := false;
    }

    /** free_chain(): it frees the three descriptors of the request and stops there. */
    method FreeChain(h: nat, ghost r: Req) returns (panicked: bool)
      requires |free| == |desc| == NUM && Linked(desc, h, r) && !free[h] && !free[r.d1] && !free[r.d2]
      modifies this`free, this`desc
      ensures !panicked && free == old(free)[h := true][r.d1 := true][r.d2 := true]
      ensures desc == old(desc)[h := Zero()][r.d1 := Zero()][r.d2 := Zero()]
    {
      var i := h;
      ghost var k := 0;
      while true
        invariant k == 0 ==> i == h && free == old(free) && desc == old(desc)
        invariant k == 1 ==> i == r.d1 && free == old(free)[h := true] && desc == old(desc)[h := Zero()]
        invariant k == 2 ==>
                  && i == r.d2 && free == old(free)[h := true][r.d1 := true]
                  && desc == old(desc)[h := Zero()][r.d1 := Zero()]
        invariant 0 <= k <= 2
        decreases 2 - k
      {
        var flag, nxt := desc[i].flags, desc[i].next;
        panicked := FreeDesc(i);
        if flag % 2 == F_NEXT {
          i := nxt;
          k := k + 1;
        } else {
          break;
        }
      }
    }

    /** The end of virtio_disk_rw(), once b->disk is 0 again. */
    method Finish(h: nat, ghost b: nat) returns (panicked: bool)
      requires Inv(D()) && h in reqs && reqs[h].b == b && b !in busy
      modifies this
      ensures old(reqs[h]).phase == Done && !panicked && Inv(D()) && reqs == old(reqs) - {h}
      ensures busy == old(busy) && data == old(data) && sectors == old(sectors)
      ensures status == old(status) && offered == old(offered) && used == old(used)
      ensures submits == old(submits) && completes == old(completes) && inflight == old(inflight)
    {
      hide Chains, OwnerOk, QueuesOk, CountersOk, BuffersOk, Inv, ChainOk, Linked;
      ghost var d := D();
      ghost var r := reqs[h];
      FinishReady(d, h);
      infoB := infoB[h := None];
      panicked := FreeChain(h, r);
      reqs := reqs - {h};
      owner := owner - {h, r.d1, r.d2};
      assert D() == Released(d, h);
    }
  }
}
