/** Whole runs of the disk queue: processes submitting requests, the device and the interrupt
    handler in any order, against a plain table of requests by buffer. */
module VirtioRun {
  import opened Params
  import opened Virtio

  // ---------------------------------------------------------------- the plain table

  /** A request under way, and the status the device has reported for it. */
  datatype Pend = Pend(op: BlkReq, phase: Phase, status: nat)

  /** The disk, the buffers, the request of each waiting buffer, and the buffers of the requests
      not yet taken and of those not yet seen by the interrupt handler, in order. */
  datatype View = View(sectors: map<nat, Block>, data: map<nat, Block>, pend: map<nat, Pend>,
                       offered: seq<nat>, used: seq<nat>)

  datatype Op =
    | Rw(b: nat, write: bool, blockno: nat)
    | DeviceFetch
    | DeviceComplete(b: nat, status: nat)
    | Interrupt
    | WaitOver(b: nat)

  predicate In(v: View, b: nat, p: Phase) { b in v.pend && v.pend[b].phase == p }

  /** The interrupt handler panics: the oldest finished request is bad. */
  predicate Fails(v: View, op: Op) {
    op.Interrupt? && v.used != [] && In(v, v.used[0], Used) && v.pend[v.used[0]].status != 0
  }

  /** One step: a request moves on, and when the device reports it good its data has moved, once. */
  function Next(v: View, op: Op): View {
    match op
    case Rw(b, write, blockno) =>
      if b in v.pend || |v.pend| >= 2 then v
      else v.(pend := v.pend[b := Pend(BlkReq(write, blockno * 2), Offered, 255)], offered := v.offered + [b])
    case DeviceFetch =>
      if v.offered == [] || !In(v, v.offered[0], Offered) then v
      else v.(pend := v.pend[v.offered[0] := v.pend[v.offered[0]].(phase := Taken)], offered := v.offered[1..])
    case DeviceComplete(b, st) =>
      if !In(v, b, Taken) then v
      else
        var r := v.pend[b].op;
        v.(pend := v.pend[b := Pend(r, Used, st)], used := v.used + [b],
           data := if st != 0 || r.write then v.data else v.data[b := Lookup(v.sectors, r.sector)],
           sectors := if st == 0 && r.write then v.sectors[r.sector := Lookup(v.data, b)] else v.sectors)
    case Interrupt =>
      if v.used == [] || !In(v, v.used[0], Used) || Fails(v, op) then v
      else v.(pend := v.pend[v.used[0] := v.pend[v.used[0]].(phase := Done)], used := v.used[1..])
    case WaitOver(b) => if In(v, b, Done) then v.(pend := v.pend - {b}) else v
  }

  function After(v: View, ops: seq<Op>): View
    decreases |ops|
  {
    if ops == [] || Fails(v, ops[0]) then v else After(Next(v, ops[0]), ops[1..])
  }

  /** How many steps there are before the interrupt handler panics. */
  function Length(v: View, ops: seq<Op>): nat
    decreases |ops|
  {
    if ops == [] || Fails(v, ops[0]) then 0 else 1 + Length(Next(v, ops[0]), ops[1..])
  }

  // ---------------------------------------------------------------- one request from end to end

  predicate Quiet(v: View) { v.pend == map[] && v.offered == [] && v.used == [] }

  /** A call of virtio_disk_rw() that nothing interrupts. */
  function Call(b: nat, write: bool, blockno: nat): seq<Op> {
    [Rw(b, write, blockno), DeviceFetch, DeviceComplete(b, 0), Interrupt, WaitOver(b)]
  }

  lemma First(v: View, op: Op, ops: seq<Op>)
    requires !Fails(v, op)
    ensures After(v, [op] + ops) == After(Next(v, op), ops) && Length(v, [op] + ops) == 1 + Length(Next(v, op), ops)
  {
    hide Next, Fails;
    assert ([op] + ops)[1..] == ops;
  }

  lemma Submitted(v: View, b: nat, write: bool, blockno: nat)
    requires Quiet(v)
    ensures Next(v, Rw(b, write, blockno)) ==
            v.(pend := map[b := Pend(BlkReq(write, blockno * 2), Offered, 255)], offered := [b])
  {
  }

  lemma Fetched(v: View, b: nat, op: BlkReq)
    requires v.pend == map[b := Pend(op, Offered, 255)] && v.offered == [b]
    ensures Next(v, DeviceFetch) == v.(pend := map[b := Pend(op, Taken, 255)], offered := [])
  {
    assert v.offered[1..] == [];
  }

  lemma CarriedOut(v: View, b: nat, op: BlkReq)
    requires v.pend == map[b := Pend(op, Taken, 255)] && v.used == []
    ensures Next(v, DeviceComplete(b, 0)) ==
            v.(pend := map[b := Pend(op, Used, 0)], used := [b],
               data := if op.write then v.data else v.data[b := Lookup(v.sectors, op.sector)],
               sectors := if op.write then v.sectors[op.sector := Lookup(v.data, b)] else v.sectors)
  {
    assert v.used + [b] == [b];
  }

  lemma Over(v: View, b: nat, op: BlkReq)
    requires v.pend == map[b := Pend(op, Used, 0)] && v.used == [b]
    ensures !Fails(v, Interrupt) && Next(Next(v, Interrupt), WaitOver(b)) == v.(pend := map[], used := [])
  {
    assert v.used[1..] == [];
    var w := Next(v, Interrupt);
    assert w.pend - {b} == map[];
  }

  lemma Ended(v: View)
    ensures After(v, []) == v && Length(v, []) == 0
  {
  }

  lemma Listed(b: nat, write: bool, blockno: nat)
    ensures Call(b, write, blockno) ==
            [Rw(b, write, blockno)] + [DeviceFetch, DeviceComplete(b, 0), Interrupt, WaitOver(b)]
    ensures [DeviceFetch, DeviceComplete(b, 0), Interrupt, WaitOver(b)] ==
            [DeviceFetch] + [DeviceComplete(b, 0), Interrupt, WaitOver(b)]
    ensures [DeviceComplete(b, 0), Interrupt, WaitOver(b)] == [DeviceComplete(b, 0)] + [Interrupt, WaitOver(b)]
    ensures [Interrupt, WaitOver(b)] == [Interrupt] + [WaitOver(b)] && [WaitOver(b)] == [WaitOver(b)] + []
  {
  }

  /** The block is BSIZE bytes at its place on a disk of 512-byte sectors; a write brings the buffer
      there, a read fetches it from there, and nothing else changes. */
  lemma CallMoves(v: View, b: nat, write: bool, blockno: nat, s: nat)
    requires Quiet(v) && s * 512 == blockno * BSIZE
    ensures Length(v, Call(b, write, blockno)) == 5
    ensures After(v, Call(b, write, blockno)) ==
            if write then v.(sectors := v.sectors[s := Lookup(v.data, b)])
            else v.(data := v.data[b := Lookup(v.sectors, s)])
  {
    hide Lookup, After, Length, Next;
    var op := BlkReq(write, s);
    assert s == blockno * 2;
    Submitted(v, b, write, blockno);
    var v1 := Next(v, Rw(b, write, blockno));
    Fetched(v1, b, op);
    var v2 := Next(v1, DeviceFetch);
    CarriedOut(v2, b, op);
    var v3 := Next(v2, DeviceComplete(b, 0));
    Over(v3, b, op);
    var v4 := Next(v3, Interrupt);
    First(v, Rw(b, write, blockno), [DeviceFetch, DeviceComplete(b, 0), Interrupt, WaitOver(b)]);
    First(v1, DeviceFetch, [DeviceComplete(b, 0), Interrupt, WaitOver(b)]);
    First(v2, DeviceComplete(b, 0), [Interrupt, WaitOver(b)]);
    First(v3, Interrupt, [WaitOver(b)]);
    First(v4, WaitOver(b), []);
    Ended(Next(v4, WaitOver(b)));
    Listed(b, write, blockno);
  }

  /** What was written from one buffer is read into another. */
  lemma ReadBack(v: View, b: nat, c: nat, blockno: nat)
    requires Quiet(v)
    ensures var w := After(v, Call(b, true, blockno));
            Quiet(w) && Lookup(After(w, Call(c, false, blockno)).data, c) == Lookup(v.data, b)
  {
    hide After, Length;
    var s := blockno * 2;
    CallMoves(v, b, true, blockno, s);
    CallMoves(After(v, Call(b, true, blockno)), c, false, blockno, s);
  }

  // ---------------------------------------------------------------- the link to the queue

  /** What the other parties remember: a process inside virtio_disk_rw() has the head of its chain
      in idx[0], found here by its buffer, and the device knows the requests it has taken. */
  ghost predicate Tracks(reqs: map<nat, Req>, waiting: map<nat, nat>, taken: set<nat>) {
    && (forall b :: b in waiting ==> waiting[b] in reqs && reqs[waiting[b]].b == b)
    && (forall h :: h in reqs ==> reqs[h].b in waiting && waiting[reqs[h].b] == h)
    && (forall h :: h in taken <==> h in reqs && reqs[h].phase == Taken)
  }

  ghost function PendAt(reqs: map<nat, Req>, status: seq<nat>, h: nat): Pend {
    if h in reqs && h < |status| then Pend(reqs[h].op, reqs[h].phase, status[h]) else Pend(BlkReq(false, 0), Done, 0)
  }

  ghost function Pends(reqs: map<nat, Req>, status: seq<nat>, waiting: map<nat, nat>): map<nat, Pend> {
    map b | b in waiting :: PendAt(reqs, status, waiting[b])
  }

  /** The buffers of a queue of requests. */
  ghost function Bufs(reqs: map<nat, Req>, q: seq<nat>): seq<nat> {
    seq(|q|, i requires 0 <= i < |q| => if q[i] in reqs then reqs[q[i]].b else 0)
  }

  ghost function ViewOf(d: Disk, waiting: map<nat, nat>): View {
    View(d.sectors, d.data, Pends(d.reqs, d.status, waiting), Bufs(d.reqs, d.offered), Bufs(d.reqs, d.used))
  }

  lemma TrackNew(reqs: map<nat, Req>, waiting: map<nat, nat>, taken: set<nat>, h: nat, r: Req)
    requires Tracks(reqs, waiting, taken) && h !in reqs && r.b !in waiting && r.phase == Offered
    ensures Tracks(reqs[h := r], waiting[r.b := h], taken)
  {
  }

  lemma TrackMove(reqs: map<nat, Req>, waiting: map<nat, nat>, taken: set<nat>, h: nat, p: Phase)
    requires Tracks(reqs, waiting, taken) && h in reqs
    ensures Tracks(reqs[h := reqs[h].(phase := p)], waiting, if p == Taken then taken + {h} else taken - {h})
    ensures h in taken <==> reqs[h].phase == Taken
  {
  }

  lemma TrackEnd(reqs: map<nat, Req>, waiting: map<nat, nat>, taken: set<nat>, h: nat)
    requires Tracks(reqs, waiting, taken) && h in reqs && reqs[h].phase == Done
    ensures Tracks(reqs - {h}, waiting - {reqs[h].b}, taken)
  {
  }

  lemma TrackUse(reqs: map<nat, Req>, waiting: map<nat, nat>, taken: set<nat>)
    requires Tracks(reqs, waiting, taken)
    ensures (forall b :: b in waiting ==> waiting[b] in reqs && reqs[waiting[b]].b == b)
    ensures forall h :: h in taken ==> h in reqs && reqs[h].phase == Taken
    ensures forall b, h :: b !in waiting && h in reqs ==> reqs[h].b != b
  {
  }

  /** As many processes wait as there are requests. */
  lemma {:induction false} TrackSize(reqs: map<nat, Req>, waiting: map<nat, nat>, taken: set<nat>)
    requires Tracks(reqs, waiting, taken)
    ensures |waiting| == |reqs|
    decreases |waiting|
  {
    if waiting == map[] {
      assert reqs == map[];
    } else {
      var b :| b in waiting;
      var h := waiting[b];
      TrackSize(reqs - {h}, waiting - {b}, taken - {h});
      assert |waiting| == |waiting - {b}| + 1 && |reqs| == |reqs - {h}| + 1;
    }
  }

  lemma PendsSize(reqs: map<nat, Req>, status: seq<nat>, waiting: map<nat, nat>)
    ensures Pends(reqs, status, waiting).Keys == waiting.Keys && |Pends(reqs, status, waiting)| == |waiting|
  {
    assert Pends(reqs, status, waiting).Keys == waiting.Keys;
    assert |Pends(reqs, status, waiting).Keys| == |waiting.Keys|;
  }

  /** A change of phase and status of request h is a change at its buffer. */
  lemma PendsMove(reqs: map<nat, Req>, status: seq<nat>, waiting: map<nat, nat>, taken: set<nat>, h: nat, p: Phase,
                  st: nat)
    requires Tracks(reqs, waiting, taken) && h in reqs && h < |status|
    ensures Pends(reqs[h := reqs[h].(phase := p)], status[h := st], waiting)
         == Pends(reqs, status, waiting)[reqs[h].b := Pend(reqs[h].op, p, st)]
  {
  }

  lemma PendsNew(reqs: map<nat, Req>, status: seq<nat>, waiting: map<nat, nat>, taken: set<nat>, h: nat, r: Req)
    requires Tracks(reqs, waiting, taken) && h !in reqs && h < |status| && r.phase == Offered && r.b !in waiting
    ensures Pends(reqs[h := r], status[h := 255], waiting[r.b := h])
            == Pends(reqs, status, waiting)[r.b := Pend(r.op, Offered, 255)]
  {
  }

  lemma PendsEnd(reqs: map<nat, Req>, status: seq<nat>, waiting: map<nat, nat>, taken: set<nat>, h: nat)
    requires Tracks(reqs, waiting, taken) && h in reqs
    ensures Pends(reqs - {h}, status, waiting - {reqs[h].b}) == Pends(reqs, status, waiting) - {reqs[h].b}
  {
  }

  /** Buffers of queued requests do not change when a request changes its phase, or one that is
      not queued comes or goes. */
  lemma BufsMove(reqs: map<nat, Req>, q: seq<nat>, h: nat, p: Phase)
    requires h in reqs
    ensures Bufs(reqs[h := reqs[h].(phase := p)], q) == Bufs(reqs, q)
  {
  }

  lemma BufsOther(reqs: map<nat, Req>, reqs': map<nat, Req>, q: seq<nat>)
    requires forall h :: h in q ==> h in reqs && h in reqs' && reqs'[h] == reqs[h]
    ensures Bufs(reqs', q) == Bufs(reqs, q)
  {
  }

  lemma BufsMore(reqs: map<nat, Req>, q: seq<nat>, h: nat)
    requires h in reqs
    ensures Bufs(reqs, q + [h]) == Bufs(reqs, q) + [reqs[h].b]
    ensures q != [] && q[0] == h ==> Bufs(reqs, q)[0] == reqs[h].b && Bufs(reqs, q[1..]) == Bufs(reqs, q)[1..]
  {
  }

  /** The queues hold requests in their phases. */
  lemma Queued(d: Disk)
    requires Inv(d)
    ensures (forall h :: h in d.offered <==> InPhase(d, h, Offered))
    ensures (forall h :: h in d.used <==> InPhase(d, h, Used))
    ensures (d.devIdx == d.availIdx <==> d.offered == []) && (d.seenIdx == d.usedIdx <==> d.used == [])
    ensures forall h :: h in d.reqs ==> h < |d.status| == NUM && (d.reqs[h].phase != Done <==> d.reqs[h].b in d.busy)
  {
    hide Chains, OwnerOk, CountersOk, ChainOk;
    QueueSizes(d);
    forall h | h in d.reqs ensures h < |d.status| == NUM { StatusAt(d, h); }
  }

  /** Where request h is found in the table. */
  lemma TrackAt(reqs: map<nat, Req>, status: seq<nat>, waiting: map<nat, nat>, taken: set<nat>, h: nat)
    requires Tracks(reqs, waiting, taken) && h in reqs && h < |status|
    ensures var b, ps := reqs[h].b, Pends(reqs, status, waiting);
            b in waiting && waiting[b] == h && b in ps && ps[b] == Pend(reqs[h].op, reqs[h].phase, status[h])
    ensures h in taken <==> reqs[h].phase == Taken
  {
  }

  lemma BufsEmpty(reqs: map<nat, Req>, q: seq<nat>)
    ensures |Bufs(reqs, q)| == |q|
  {
  }

  lemma Bounded(d: Disk)
    requires Inv(d)
    ensures |d.reqs| <= 2 && d.inflight == d.submits - d.completes
  {
    hide Chains, QueuesOk, BuffersOk;
    AtMostTwo(d);
  }

  // ---------------------------------------------------------------- the machine

  class Machine {
    const disk: VirtioDisk
    var waiting: map<nat, nat>
    var taken: set<nat>

    ghost predicate Valid()
      reads this, disk
    {
      Inv(disk.D()) && Tracks(disk.reqs, waiting, taken)
    }

    ghost function V(): View
      reads this, disk
    {
      ViewOf(disk.D(), waiting)
    }

    constructor (sectors: map<nat, Block>, data: map<nat, Block>)
      ensures Valid() && fresh(disk) && disk.submits == 0 && V() == View(sectors, data, map[], [], [])
    {
      disk := new VirtioDisk(sectors, data);
      waiting, taken := map[], {};
    }

    /** virtio_disk_rw() of a buffer whose lock the caller holds, up to the wait. */
    method Request(b: nat, write: bool, blockno: nat)
      requires Valid()
      modifies this, disk
      ensures Valid() && V() == Next(old(V()), Rw(b, write, blockno))
    {
      hide Inv, Tracks, Pends, Bufs;
      ghost var d := disk.D();
      Queued(d);
      TrackUse(d.reqs, waiting, taken);
      TrackSize(d.reqs, waiting, taken);
      PendsSize(d.reqs, d.status, waiting);
      if b !in waiting {
        var ok, h := disk.Submit(b, write, blockno);
        if ok {
          TrackNew(d.reqs, waiting, taken, h, disk.reqs[h]);
          PendsNew(d.reqs, d.status, waiting, taken, h, disk.reqs[h]);
          BufsOther(d.reqs, disk.reqs, d.offered);
          BufsOther(d.reqs, disk.reqs, d.used);
          BufsMore(disk.reqs, d.offered, h);
          waiting := waiting[b := h];
        }
      }
    }

    /** The device taking the next request. */
    method Take()
      requires Valid()
      modifies this, disk
      ensures Valid() && V() == Next(old(V()), DeviceFetch)
    {
      hide Inv, Tracks, Pends, Bufs;
      ghost var d := disk.D();
      Queued(d);
      BufsEmpty(d.reqs, d.offered);
      if disk.devIdx != disk.availIdx {
        assert d.offered[0] in d.offered;
        var h := disk.Fetch();
        TrackAt(d.reqs, d.status, waiting, taken, h);
        TrackMove(d.reqs, waiting, taken, h, Taken);
        PendsMove(d.reqs, d.status, waiting, taken, h, Taken, d.status[h]);
        assert d.status[h := d.status[h]] == d.status;
        BufsMove(d.reqs, d.used, h, Taken);
        BufsMove(d.reqs, d.offered[1..], h, Taken);
        BufsMore(d.reqs, d.offered, h);
        taken := taken + {h};
      }
    }

    /** The device finishing a request it has taken, with the status it reports. */
    method Carry(b: nat, st: nat)
      requires Valid()
      modifies this, disk
      ensures Valid() && V() == Next(old(V()), DeviceComplete(b, st))
    {
      hide Inv, Tracks, Pends, Bufs;
      ghost var d := disk.D();
      Queued(d);
      TrackUse(d.reqs, waiting, taken);
      PendsSize(d.reqs, d.status, waiting);
      if b in waiting {
        var h := waiting[b];
        TrackAt(d.reqs, d.status, waiting, taken, h);
        if h in taken {
          disk.Complete(h, st);
          TrackMove(d.reqs, waiting, taken, h, Used);
          PendsMove(d.reqs, d.status, waiting, taken, h, Used, st);
          BufsMove(d.reqs, d.offered, h, Used);
          BufsMove(d.reqs, d.used + [h], h, Used);
          BufsMore(d.reqs, d.used, h);
          taken := taken - {h};
        }
      }
    }

    /** One round of the interrupt handler. */
    method See() returns (panicked: bool)
      requires Valid()
      modifies this, disk
      ensures panicked <==> Fails(old(V()), Interrupt)
      ensures V() == Next(old(V()), Interrupt) && (if panicked then V() == old(V()) else Valid())
    {
      hide Inv, Tracks, Pends, Bufs;
      ghost var d := disk.D();
      Queued(d);
      BufsEmpty(d.reqs, d.used);
      panicked := false;
      if disk.seenIdx != disk.usedIdx {
        ghost var h := d.used[0];
        assert h in d.used;
        TrackAt(d.reqs, d.status, waiting, taken, h);
        BufsMore(d.reqs, d.used, h);
        panicked := disk.IntrRound();
        if !panicked {
          TrackMove(d.reqs, waiting, taken, h, Done);
          PendsMove(d.reqs, d.status, waiting, taken, h, Done, d.status[h]);
          assert d.status[h := d.status[h]] == d.status;
          BufsMove(d.reqs, d.offered, h, Done);
          BufsMove(d.reqs, d.used[1..], h, Done);
          assert taken - {h} == taken;
        }
      }
    }

    /** The end of virtio_disk_rw(), for a process whose buffer is no longer busy. */
    method Leave(b: nat)
      requires Valid()
      modifies this, disk
      ensures Valid() && V() == Next(old(V()), WaitOver(b))
    {
      hide Inv, Tracks, Pends, Bufs;
      ghost var d := disk.D();
      Queued(d);
      TrackUse(d.reqs, waiting, taken);
      PendsSize(d.reqs, d.status, waiting);
      if b in waiting {
        var h := waiting[b];
        TrackAt(d.reqs, d.status, waiting, taken, h);
        if b !in disk.busy {
          var _ := disk.Finish(h, b);
          TrackEnd(d.reqs, waiting, taken, h);
          PendsEnd(d.reqs, d.status, waiting, taken, h);
          BufsOther(d.reqs, disk.reqs, d.offered);
          BufsOther(d.reqs, disk.reqs, d.used);
          waiting := waiting - {b};
        }
      }
    }

    method Step(op: Op) returns (panicked: bool)
      requires Valid()
      modifies this, disk
      ensures panicked <==> Fails(old(V()), op)
      ensures V() == Next(old(V()), op) && (if panicked then V() == old(V()) else Valid())
    {
      hide Inv, Tracks, ViewOf, Next, In;
      panicked := false;
      match op
      case Rw(b, write, blockno) => Request(b, write, blockno);
      case DeviceFetch => Take();
      case DeviceComplete(b, st) => Carry(b, st);
      case Interrupt => panicked := See();
      case WaitOver(b) => Leave(b);
    }

    /** However processes, device and interrupts interleave, descriptors and rings carry out
        exactly the requests of the plain table: each moves the right block between the right
        buffer and sector, once, and at most two are outstanding.  The only panic reached is that
        on a request the device reports bad. */
    method Run(ops: seq<Op>) returns (steps: nat, panicked: bool)
      requires Valid()
      modifies this, disk
      ensures V() == After(old(V()), ops) && steps == Length(old(V()), ops) && (panicked <==> steps < |ops|)
      ensures !panicked ==> Valid() && |disk.reqs| <= 2 && disk.inflight == disk.submits - disk.completes
    {
      hide Inv, Tracks, ViewOf, Next, Fails;
      steps, panicked := 0, false;
      while steps < |ops|
        invariant steps <= |ops| && Valid() && !panicked
        invariant After(V(), ops[steps..]) == After(old(V()), ops)
        invariant steps + Length(V(), ops[steps..]) == Length(old(V()), ops)
      {
        assert ops[steps..][1..] == ops[steps + 1..];
        panicked := Step(ops[steps]);
        if panicked {
          return;
        }
        steps := steps + 1;
      }
      Bounded(disk.D());
    }
  }
}
