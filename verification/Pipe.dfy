/** The bounded buffer of kernel/pipe.c.

    A method is what one process does while it holds pi->lock: from a call of pipewrite() or
    piperead(), or from a wakeup inside one, to the return or to the next sleep().  Segments of
    different processes interleave freely.  The counters are 32-bit and wrap.  Whether a user
    copy fails, and when a kill becomes visible, is left open. */
module Pipe {
  import opened Rings

  const SIZE: nat := 512
  const WRAP: nat := 0x1_0000_0000

  type Byte = bv8

  /** Where a process is in its call: how many of its bytes are stored, and whether it sleeps. */
  datatype Proc =
    | Idle
    | Writing(src: seq<Byte>, done: nat, asleep: bool)
    | Reading(n: int, asleep: bool)

  datatype Outcome = Slept | Returned(value: int)

  // ---------------------------------------------------------------- sleepers

  function Wake(p: Proc, readers: bool): Proc {
    if readers && p.Reading? then Reading(p.n, false)
    else if !readers && p.Writing? then Writing(p.src, p.done, false)
    else p
  }

  function WakeAll(procs: map<nat, Proc>, readers: bool): map<nat, Proc> {
    map p | p in procs :: Wake(procs[p], readers)
  }

  ghost predicate SleepingReader(procs: map<nat, Proc>) {
    exists p :: p in procs && procs[p].Reading? && procs[p].asleep
  }

  ghost predicate SleepingWriter(procs: map<nat, Proc>) {
    exists p :: p in procs && procs[p].Writing? && procs[p].asleep
  }

  lemma Woken(procs: map<nat, Proc>, readers: bool)
    ensures var after := WakeAll(procs, readers);
            && (readers ==> !SleepingReader(after) && (SleepingWriter(after) <==> SleepingWriter(procs)))
            && (!readers ==> !SleepingWriter(after) && (SleepingReader(after) <==> SleepingReader(procs)))
  {
    var after := WakeAll(procs, readers);
    if SleepingReader(procs) {
      var p :| p in procs && procs[p].Reading? && procs[p].asleep;
      assert !readers ==> after[p].Reading? && after[p].asleep;
    }
    if SleepingWriter(procs) {
      var p :| p in procs && procs[p].Writing? && procs[p].asleep;
      assert readers ==> after[p].Writing? && after[p].asleep;
    }
  }

  /** A process that is not asleep changes no answer by becoming one that is not. */
  lemma Replaced(procs: map<nat, Proc>, p: nat, q: Proc)
    requires q.Idle? || !q.asleep
    ensures SleepingReader(procs[p := q]) ==> SleepingReader(procs)
    ensures SleepingWriter(procs[p := q]) ==> SleepingWriter(procs)
  {
    var after := procs[p := q];
    if SleepingReader(after) {
      var r :| r in after && after[r].Reading? && after[r].asleep;
      assert r in procs && procs[r] == after[r];
    }
    if SleepingWriter(after) {
      var r :| r in after && after[r].Writing? && after[r].asleep;
      assert r in procs && procs[r] == after[r];
    }
  }

  lemma PutToSleep(procs: map<nat, Proc>, p: nat, q: Proc)
    ensures SleepingReader(procs[p := q]) ==> SleepingReader(procs) || q.Reading?
    ensures SleepingWriter(procs[p := q]) ==> SleepingWriter(procs) || q.Writing?
  {
    var after := procs[p := q];
    if SleepingReader(after) {
      var r :| r in after && after[r].Reading? && after[r].asleep;
      assert r != p ==> r in procs && procs[r] == after[r];
    }
    if SleepingWriter(after) {
      var r :| r in after && after[r].Writing? && after[r].asleep;
      assert r != p ==> r in procs && procs[r] == after[r];
    }
  }

  /** How far a writer gets: to the end, to a full buffer, to a fault or to a kill. */
  function Stop(start: nat, n: nat, room: nat, faultAt: nat, killAt: nat): (stop: nat)
    requires start <= n
    ensures start <= stop <= n && stop - start <= room
    ensures stop == n || stop - start == room || stop == faultAt || stop == killAt
    decreases room
  {
    if start == n || room == 0 || start == faultAt || start == killAt then start
    else Stop(start + 1, n, room - 1, faultAt, killAt)
  }

  // ---------------------------------------------------------------- the plain queue

  /** A pipe without a ring: all bytes ever written and ever taken, and who is where. */
  datatype View = View(
    written: seq<Byte>, taken: seq<Byte>, readopen: bool, writeopen: bool,
    procs: map<nat, Proc>, killed: set<nat>, missed: bool)

  function Held(v: View): seq<Byte> { if |v.taken| <= |v.written| then v.written[|v.taken|..] else [] }

  lemma Buffered(written: seq<Byte>, taken: seq<Byte>, buffered: seq<Byte>)
    requires written == taken + buffered
    ensures |taken| <= |written| && written[|taken|..] == buffered
  {
  }

  predicate Fresh(call: Proc) {
    !call.Idle? && !call.asleep && (call.Writing? ==> call.done == 0 && |call.src| <= NEVER)
  }

  /** How far writer p gets in one segment. */
  function StopOf(v: View, p: nat, faultAt: nat, killAt: nat): nat
    requires p in v.procs && v.procs[p].Writing?
  {
    var w := v.procs[p];
    if !v.readopen || p in v.killed || w.done > |w.src| || |Held(v)| > SIZE then w.done
    else Stop(w.done, |w.src|, SIZE - |Held(v)|, faultAt, killAt)
  }

  /** The segment ends with -1, and without a wakeup. */
  predicate Refused(v: View, p: nat, faultAt: nat, killAt: nat)
    requires p in v.procs && v.procs[p].Writing?
  {
    var stop := StopOf(v, p, faultAt, killAt);
    stop < |v.procs[p].src| && (!v.readopen || p in v.killed || stop == killAt)
  }

  function WriteNext(v: View, p: nat, faultAt: nat, killAt: nat): View
    requires p in v.procs && v.procs[p].Writing?
  {
    var w, stop, refused := v.procs[p], StopOf(v, p, faultAt, killAt), Refused(v, p, faultAt, killAt);
    var stays := stop < |w.src| && !refused && |Held(v)| + stop - w.done == SIZE;
    v.(written := if w.done <= stop <= |w.src| then v.written + w.src[w.done..stop] else v.written,
       killed := if v.readopen && stop == killAt && stop < |w.src| then v.killed + {p} else v.killed,
       procs := (if refused then v.procs else WakeAll(v.procs, true))[
         p := if stays then Writing(w.src, stop, true) else Idle],
       missed := refused && (v.missed || stop > w.done))
  }

  function ReadNext(v: View, p: nat, faultAt: nat): View
    requires p in v.procs && v.procs[p].Reading?
  {
    var n, q := v.procs[p].n, Held(v);
    if q == [] && v.writeopen then
      v.(procs := v.procs[p := if p in v.killed then Idle else Reading(n, true)], missed := false)
    else
      var k := Least(n, Least(|q|, faultAt));
      v.(taken := v.taken + q[..k], procs := WakeAll(v.procs, false)[p := Idle], missed := v.missed && k < |q|)
  }

  /** One step of the plain queue, which is nothing if the process cannot take it. */
  function Next(v: View, op: Op): View {
    match op
    case Start(p, call) =>
      if (p in v.procs ==> v.procs[p].Idle?) && Fresh(call) then v.(procs := v.procs[p := call]) else v
    case Resume(p, faultAt, killAt) =>
      if p in v.procs && v.procs[p].Writing? && !v.procs[p].asleep then WriteNext(v, p, faultAt, killAt)
      else if p in v.procs && v.procs[p].Reading? && !v.procs[p].asleep then ReadNext(v, p, faultAt)
      else v
    case Shut(writable) =>
      v.(procs := WakeAll(v.procs, writable), writeopen := v.writeopen && !writable, readopen := v.readopen && writable,
         missed := v.missed && !writable)
    case Signal(p) =>
      v.(killed := v.killed + {p},
         procs := if p in v.procs then v.procs[p := Wake(Wake(v.procs[p], true), false)] else v.procs)
  }

  function After(v: View, ops: seq<Op>): View
    decreases |ops|
  {
    if ops == [] then v else Next(After(v, ops[..|ops| - 1]), ops[|ops| - 1])
  }

  predicate Writes(v: View, op: Op) { op.Resume? && op.p in v.procs && v.procs[op.p].Writing? && !v.procs[op.p].asleep }

  predicate Reads(v: View, op: Op) { op.Resume? && op.p in v.procs && v.procs[op.p].Reading? && !v.procs[op.p].asleep }

  /** A writer stores bytes, is killed, and returns without waking anybody. */
  predicate Abandons(v: View, op: Op) {
    && Writes(v, op) && Refused(v, op.p, op.faultAt, op.killAt)
    && StopOf(v, op.p, op.faultAt, op.killAt) > v.procs[op.p].done
  }

  /** The readers are woken, or nothing is left for them. */
  predicate Settles(v: View, op: Op) {
    || (op.Shut? && op.writable)
    || (Writes(v, op) && !Refused(v, op.p, op.faultAt, op.killAt))
    || (Reads(v, op) && Held(Next(v, op)) == [])
  }

  lemma MissedStep(v: View, op: Op)
    ensures Next(v, op).missed <==> Abandons(v, op) || (v.missed && !Settles(v, op))
  {
    hide Stop, WakeAll;
  }

  lemma LeftStep(v: View, ops: seq<Op>, i: int)
    requires ops != []
    ensures var n := |ops| - 1;
            LeftAt(v, ops, i) <==> if i == n then Abandons(After(v, ops[..n]), ops[n])
                                   else LeftAt(v, ops[..n], i) && !Settles(After(v, ops[..n]), ops[n])
  {
    hide Next, Abandons, Settles, After;
    var n := |ops| - 1;
    var rest := ops[..n];
    assert forall k :: 0 <= k <= n ==> rest[..k] == ops[..k];
    if LeftAt(v, rest, i) && !Settles(After(v, ops[..n]), ops[n]) {
      forall j | i < j < |ops| ensures !Settles(After(v, ops[..j]), ops[j]) {
        assert j < n ==> !Settles(After(v, rest[..j]), rest[j]);
      }
    }
    if LeftAt(v, ops, i) && i < n {
      forall j | i < j < n ensures !Settles(After(v, rest[..j]), rest[j]) {
        assert !Settles(After(v, ops[..j]), ops[j]);
      }
    }
  }

  /** In terms of the steps taken: bytes are beside a sleeping reader exactly if some killed writer
      left bytes and since then the readers were not woken and the pipe was not emptied. */
  lemma {:induction false} MissedIff(v: View, ops: seq<Op>)
    requires !v.missed
    ensures After(v, ops).missed <==> exists i :: LeftAt(v, ops, i)
    decreases |ops|
  {
    hide Next, Abandons, Settles, LeftAt;
    if ops == [] {
      NothingLeft(v);
    } else {
      var n := |ops| - 1;
      MissedIff(v, ops[..n]);
      MissedStep(After(v, ops[..n]), ops[n]);
      forall i ensures LeftAt(v, ops, i) <==> if i == n then Abandons(After(v, ops[..n]), ops[n])
                                              else LeftAt(v, ops[..n], i) && !Settles(After(v, ops[..n]), ops[n]) {
        LeftStep(v, ops, i);
      }
      NotYet(v, ops[..n]);
      assert Abandons(After(v, ops[..n]), ops[n]) ==> LeftAt(v, ops, n);
    }
  }

  lemma NothingLeft(v: View)
    ensures forall i :: !LeftAt(v, [], i)
  {
  }

  lemma NotYet(v: View, ops: seq<Op>)
    ensures !LeftAt(v, ops, |ops|)
  {
  }

  ghost predicate LeftAt(v: View, ops: seq<Op>, i: int) {
    && 0 <= i < |ops| && Abandons(After(v, ops[..i]), ops[i])
    && forall j :: i < j < |ops| ==> !Settles(After(v, ops[..j]), ops[j])
  }

  /** One step of some process; a resumed writer may be killed on the way. */
  datatype Op =
    | Start(p: nat, call: Proc)
    | Resume(p: nat, faultAt: nat, killAt: nat)
    | Shut(writable: bool)
    | Signal(p: nat)

  const NEVER: nat := WRAP

  predicate Kills(op: Op) { op.Signal? || (op.Resume? && op.killAt < NEVER) }

  predicate KillFree(ops: seq<Op>) { forall i :: 0 <= i < |ops| ==> !Kills(ops[i]) }

  predicate CallsOk(procs: map<nat, Proc>) {
    forall p :: p in procs && procs[p].Writing? ==> procs[p].done <= |procs[p].src| <= NEVER
  }

  lemma WokenCalls(procs: map<nat, Proc>, readers: bool)
    requires CallsOk(procs)
    ensures CallsOk(WakeAll(procs, readers))
  {
  }

  function Least(a: int, b: nat): (r: nat)
    ensures r <= b && (a < 0 ==> r == 0) && (a >= 0 ==> r <= a && (r == a || r == b))
  {
    if a < 0 then 0 else if a < b then a else b
  }

  // ---------------------------------------------------------------- the code

  class Pipe {
    const data: array<Byte>
    var nread: nat
    var nwrite: nat
    var readopen: bool
    var writeopen: bool
    var procs: map<nat, Proc>
    var killed: set<nat>
    ghost var written: seq<Byte>
    ghost var taken: seq<Byte>
    ghost var buffered: seq<Byte>
    /** A killed writer has left bytes behind without waking the readers, and they are still there. */
    ghost var missed: bool

    /** Bytes read followed by bytes buffered are the bytes written. */
    ghost predicate Fifo()
      reads this, data
    {
      data.Length == SIZE && RingOk(data[..], SIZE, WRAP, nread, nwrite, buffered) && written == taken + buffered
    }

    /** Who may be asleep. */
    ghost predicate Sleepers()
      reads this
    {
      && (SleepingReader(procs) ==> writeopen && (buffered == [] <==> !missed))
      && (SleepingWriter(procs) ==> readopen && |buffered| == SIZE)
    }

    ghost predicate Valid()
      reads this, data
    {
      Fifo() && Sleepers() && (missed ==> killed != {} && buffered != [])
    }

    /** pipealloc(). */
    constructor ()
      ensures Valid() && fresh(data) && written == [] && taken == [] && readopen && writeopen && killed == {}
      ensures procs == map[] && !missed
    {
      data := new Byte[SIZE];
      nread, nwrite, readopen, writeopen := 0, 0, true, true;
      procs, killed, written, taken, buffered, missed := map[], {}, [], [], [], false;
    }

    /** Storing one byte. */
    method Put(ch: Byte)
      requires Fifo() && |buffered| < SIZE
      modifies this`nwrite, this`written, this`buffered, data
      ensures Fifo() && written == old(written) + [ch] && buffered == old(buffered) + [ch]
    {
      RingPut(data[..], SIZE, WRAP, nread, nwrite, buffered, ch);
      ghost var d := data[..][nwrite % SIZE := ch];
      data[nwrite % SIZE] := ch;
      nwrite := (nwrite + 1) % WRAP;
      assert data[..] == d;
      buffered := buffered + [ch];
      written := written + [ch];
    }

    method Get() returns (ch: Byte)
      requires Fifo() && buffered != []
      modifies this`nread, this`taken, this`buffered
      ensures Fifo() && ch == old(buffered)[0] && taken == old(taken) + [ch] && buffered == old(buffered)[1..]
    {
      RingGet(data[..], SIZE, WRAP, nread, nwrite, buffered);
      ch := data[nread % SIZE];
      nread := (nread + 1) % WRAP;
      taken := taken + [ch];
      buffered := buffered[1..];
    }

    /** The loop of pipewrite() up to the point where it ends or sleeps. */
    method Store(p: nat, src: seq<Byte>, start: nat, faultAt: nat, killAt: nat) returns (i: nat)
      requires Fifo() && start <= |src|
      modifies this`nwrite, this`written, this`buffered, this`killed, data
      ensures i == if !readopen || p in old(killed) then start
              else Stop(start, |src|, SIZE - |old(buffered)|, faultAt, killAt)
      ensures start <= i <= |src| && Fifo() && written == old(written) + src[start..i]
      ensures buffered == old(buffered) + src[start..i]
      ensures killed == if readopen && i == killAt && i < |src| then old(killed) + {p} else old(killed)
    {
      hide RingOk, Slot;
      i := start;
      RingTests(data[..], SIZE, WRAP, nread, nwrite, buffered);
      while i < |src|
        invariant start <= i <= |src| && Fifo() && killed == old(killed)
        invariant written == old(written) + src[start..i] && buffered == old(buffered) + src[start..i]
        invariant |buffered| <= SIZE && (i > start ==> readopen && p !in killed)
        invariant readopen && p !in killed ==>
                    Stop(start, |src|, SIZE - |old(buffered)|, faultAt, killAt)
                    == Stop(i, |src|, SIZE - |buffered|, faultAt, killAt)
      {
        RingTests(data[..], SIZE, WRAP, nread, nwrite, buffered);
        if readopen && i == killAt {
          killed := killed + {p};
          return;
        }
        if !readopen || p in killed {
          return;
        }
        if nwrite == (nread + SIZE) % WRAP {
          return;
        }
        if i == faultAt {
          return;
        }
        Put(src[i]);
        assert src[start..i + 1] == src[start..i] + [src[i]];
        i := i + 1;
        RingTests(data[..], SIZE, WRAP, nread, nwrite, buffered);
      }
    }

    /** pipewrite() of process p, from its call or from a wakeup.  The user page of byte faultAt
        is missing, and a kill of p becomes visible at byte killAt. */
    method Write(p: nat, faultAt: nat, killAt: nat) returns (r: Outcome)
      requires Valid() && p in procs && procs[p].Writing? && !procs[p].asleep && procs[p].done <= |procs[p].src|
      modifies this, data
      ensures Valid() && taken == old(taken) && readopen == old(readopen) && writeopen == old(writeopen)
      ensures var src, start := old(procs[p].src), old(procs[p].done);
              var stop := if !readopen || p in old(killed) then start
                else Stop(start, |src|, SIZE - |old(buffered)|, faultAt, killAt);
              && written == old(written) + src[start..stop]
              && killed == (if readopen && stop == killAt && stop < |src| then old(killed) + {p} else old(killed))
              && r == (if stop == |src| then Returned(stop)
                       else if !readopen || p in killed then Returned(-1)
                       else if |buffered| == SIZE then Slept else Returned(stop))
              && procs == (if r == Returned(-1) then old(procs) else WakeAll(old(procs), true))
                          [p := if r == Slept then Writing(src, stop, true) else Idle]
              && missed == (r == Returned(-1) && (old(missed) || stop > start))
    {
      hide RingOk, Slot, SleepingReader, SleepingWriter, WakeAll, Stop;
      var src, start := procs[p].src, procs[p].done;
      var i := Store(p, src, start, faultAt, killAt);
      RingTests(data[..], SIZE, WRAP, nread, nwrite, buffered);
      if i < |src| && (!readopen || p in killed) {
        Replaced(procs, p, Idle);
        procs := procs[p := Idle];
        missed := missed || i > start;
        return Returned(-1);
      }
      Woken(procs, true);
      procs := WakeAll(procs, true); // wakeup(&pi->nread)
      missed := false;
      if i < |src| && nwrite == (nread + SIZE) % WRAP {
        PutToSleep(procs, p, Writing(src, i, true));
        procs := procs[p := Writing(src, i, true)]; // sleep(&pi->nwrite, &pi->lock)
        return Slept;
      }
      Replaced(procs, p, Idle);
      procs := procs[p := Idle];
      return Returned(i);
    }

    /** piperead() of process p, from its call or from a wakeup; copying out fails at faultAt. */
    method Read(p: nat, faultAt: nat) returns (r: Outcome, out: seq<Byte>)
      requires Valid() && p in procs && procs[p].Reading? && !procs[p].asleep
      modifies this`nread, this`taken, this`buffered, this`procs, this`missed
      ensures Valid() && taken == old(taken) + out
      ensures out == old(buffered)[..Least(old(procs[p].n), Least(|old(buffered)|, faultAt))]
      ensures old(procs[p].n) > 0 ==>
                |out| <= old(procs[p].n) && (|out| == old(procs[p].n) || |out| == |old(buffered)| || |out| == faultAt)
      ensures r == (if old(buffered) == [] && writeopen then (if p in killed then Returned(-1) else Slept)
                    else if old(procs[p].n) > 0 && old(buffered) != [] && faultAt == 0 then Returned(-1)
                    else Returned(|out|))
      ensures procs == (if old(buffered) == [] && writeopen then old(procs) else WakeAll(old(procs), false))
                       [p := if r == Slept then Reading(old(procs[p].n), true) else Idle]
      ensures missed == (old(missed) && buffered != [])
    {
      hide RingOk, Slot, SleepingReader, SleepingWriter, WakeAll;
      var n := procs[p].n;
      out := [];
      RingTests(data[..], SIZE, WRAP, nread, nwrite, buffered);
      if nread == nwrite && writeopen {
        if p in killed {
          Replaced(procs, p, Idle);
          procs := procs[p := Idle];
          return Returned(-1), [];
        }
        PutToSleep(procs, p, Reading(n, true));
        procs := procs[p := Reading(n, true)]; // sleep(&pi->nread, &pi->lock)
        return Slept, [];
      }
      var i, failed := 0, false;
      while i < n
        invariant 0 <= i <= n || i == 0 > n
        invariant i <= |old(buffered)| && i <= faultAt && Fifo() && out == old(buffered)[..i]
        invariant buffered == old(buffered)[i..] && taken == old(taken) + out && procs == old(procs)
        invariant missed == old(missed)
      {
        RingTests(data[..], SIZE, WRAP, nread, nwrite, buffered);
        if nread == nwrite {
          break;
        }
        if i == faultAt {
          failed := true; // copyout() fails
          break;
        }
        var ch := Get();
        out := out + [ch];
        i := i + 1;
      }
      missed := missed && buffered != [];
      r := Returned(if failed && i == 0 then -1 else i);
      Woken(procs, false);
      procs := WakeAll(procs, false); // wakeup(&pi->nwrite)
      Replaced(procs, p, Idle);
      procs := procs[p := Idle];
    }

    /** pipeclose(). */
    method Close(writable: bool)
      requires Valid()
      modifies this`readopen, this`writeopen, this`procs, this`missed
      ensures Valid() && procs == WakeAll(old(procs), writable)
      ensures writeopen == (old(writeopen) && !writable) && readopen == (old(readopen) && writable)
      ensures missed == (old(missed) && !writable)
    {
      hide RingOk, Slot, SleepingReader, SleepingWriter, WakeAll;
      Woken(procs, writable);
      if writable {
        writeopen := false;
        missed := false;
      } else {
        readopen := false;
      }
      procs := WakeAll(procs, writable);
    }

    /** kkill() of a process that may be in a call. */
    method Kill(p: nat)
      requires Valid()
      modifies this`killed, this`procs
      ensures Valid() && killed == old(killed) + {p}
      ensures procs == if p in old(procs) then old(procs)[p := Wake(Wake(old(procs)[p], true), false)] else old(procs)
    {
      hide RingOk, Slot, SleepingReader, SleepingWriter;
      killed := killed + {p};
      if p in procs {
        var q := Wake(Wake(procs[p], true), false);
        Replaced(procs, p, q);
        procs := procs[p := q];
      }
    }

    /** Entering pipewrite() or piperead(). */
    method Enter(p: nat, call: Proc)
      requires Valid() && !call.Idle? && !call.asleep
      modifies this`procs
      ensures Valid() && procs == old(procs)[p := call]
    {
      hide RingOk, Slot, SleepingReader, SleepingWriter;
      Replaced(procs, p, call);
      procs := procs[p := call];
    }

    ghost function V(): View
      reads this
    {
      View(written, taken, readopen, writeopen, procs, killed, missed)
    }

    /** Any interleaving of calls, wakeups, closes and kills takes exactly the steps of the plain
        queue, so the bytes stay in order.  A sleeping writer means full with a reader open.  A
        sleeping reader means a writer open, and bytes beside it exactly if a killed writer has
        left them; so without kills it means empty. */
    method Run(ops: seq<Op>)
      requires Valid() && CallsOk(procs)
      modifies this, data
      ensures Valid() && CallsOk(procs) && V() == After(old(V()), ops) && written == taken + buffered
      ensures |buffered| <= SIZE
      ensures SleepingWriter(procs) ==> readopen && |buffered| == SIZE
      ensures SleepingReader(procs) ==> writeopen && (buffered != [] <==> missed)
      ensures old(killed) == {} && KillFree(ops) && SleepingReader(procs) ==> writeopen && buffered == []
    {
      hide RingOk, Slot, SleepingReader, SleepingWriter, WakeAll, Stop, Next;
      var k := 0;
      assert ops[..0] == [];
      while k < |ops|
        invariant k <= |ops| && Valid() && CallsOk(procs) && V() == After(old(V()), ops[..k])
        invariant old(killed) == {} && KillFree(ops) ==> killed == {}
      {
        assert ops[..k + 1][..k] == ops[..k];
        Step(ops[k]);
        k := k + 1;
      }
      assert ops[..k] == ops;
      RingTests(data[..], SIZE, WRAP, nread, nwrite, buffered);
    }

    method GoOnWriting(p: nat, faultAt: nat, killAt: nat)
      requires Valid() && CallsOk(procs) && p in procs && procs[p].Writing? && !procs[p].asleep
      modifies this, data
      ensures Valid() && CallsOk(procs) && V() == WriteNext(old(V()), p, faultAt, killAt)
      ensures killAt >= NEVER ==> killed == old(killed)
    {
      hide RingOk, Slot, SleepingReader, SleepingWriter, WakeAll, Stop;
      RingTests(data[..], SIZE, WRAP, nread, nwrite, buffered);
      Buffered(written, taken, buffered);
      WokenCalls(procs, true);
      var _ := Write(p, faultAt, killAt);
      Buffered(written, taken, buffered);
    }

    method GoOnReading(p: nat, faultAt: nat)
      requires Valid() && CallsOk(procs) && p in procs && procs[p].Reading? && !procs[p].asleep
      modifies this`nread, this`taken, this`buffered, this`procs, this`missed
      ensures Valid() && CallsOk(procs) && V() == ReadNext(old(V()), p, faultAt)
    {
      hide RingOk, Slot, SleepingReader, SleepingWriter, WakeAll, Stop;
      Buffered(written, taken, buffered);
      WokenCalls(procs, false);
      var _, _ := Read(p, faultAt);
      Buffered(written, taken, buffered);
    }

    method Step(op: Op)
      requires Valid() && CallsOk(procs)
      modifies this, data
      ensures Valid() && CallsOk(procs) && V() == Next(old(V()), op)
      ensures !Kills(op) && old(killed) == {} ==> killed == {}
    {
      hide RingOk, Slot, SleepingReader, SleepingWriter, WakeAll, Stop, WriteNext, ReadNext;
      match op
      case Start(p, call) =>
        if (p in procs ==> procs[p].Idle?) && Fresh(call) {
          Enter(p, call);
        }
      case Resume(p, faultAt, killAt) =>
        if p in procs && procs[p].Writing? && !procs[p].asleep {
          GoOnWriting(p, faultAt, killAt);
        } else if p in procs && procs[p].Reading? && !procs[p].asleep {
          GoOnReading(p, faultAt);
        }
      case Shut(writable) =>
        WokenCalls(procs, writable);
        Close(writable);
      case Signal(p) => Kill(p);
    }
  }

  /** With a kill the reader side of the property fails: the writer is killed after its first
      byte and returns without a wakeup, so the reader sleeps beside that byte. */
  method LostWakeup() returns (pipe: Pipe)
    ensures fresh(pipe) && pipe.Valid() && SleepingReader(pipe.procs) && pipe.readopen && pipe.writeopen
    ensures pipe.buffered != []
  {
    pipe := new Pipe();
    pipe.Enter(1, Reading(1, false));
    var r, _ := pipe.Read(1, NEVER);
    pipe.Enter(2, Writing([0, 0], 0, false));
    r := pipe.Write(2, NEVER, 1);
    assert Stop(0, 2, SIZE, NEVER, 1) == 1;
    assert pipe.procs[1] == Reading(1, true);
  }
}
