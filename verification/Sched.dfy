/** The scheduler of kernel/proc.c on one hart: priorities 0 to 3, a time stamp for how long a
    process has been waiting, and a budget of ticks.

    A method is one step of some process or of the scheduler, taken while it holds the lock of
    each slot it looks at.  The tick counter is unbounded. */
module Sched {
  import opened Counting
  import opened Params

  const PRI_MIN: int := 0
  const PRI_DEFAULT: int := 1
  const PRI_MAX: int := 3

  datatype State = Unused | Used | Sleeping | Runnable | Running | Zombie
  datatype Proc = Proc(state: State, pid: nat, chan: nat, priority: int, budget: int, stamp: nat)

  /** slice_for_priority(). */
  function Slice(prio: int): (s: int)
    ensures 2 <= s <= 8 && (PRI_MIN <= prio <= PRI_MAX ==> s == 8 - 2 * prio)
  {
    if prio <= PRI_MIN then 8 else if prio == 1 then 6 else if prio == 2 then 4 else 2
  }

  // ---------------------------------------------------------------- who runs next

  function Wait(p: Proc, now: nat): nat { if p.stamp <= now then now - p.stamp else 0 }

  /** a is at least as good a choice as b: higher priority, or the same and a longer wait. */
  predicate Beats(a: Proc, b: Proc, now: nat) {
    a.priority > b.priority || (a.priority == b.priority && Wait(a, now) >= Wait(b, now))
  }

  /** The best runnable process, the first in the table among equals. */
  predicate Best(proc: seq<Proc>, now: nat, best: nat) {
    && best < |proc| && proc[best].state == Runnable
    && (forall q :: 0 <= q < |proc| && proc[q].state == Runnable ==> Beats(proc[best], proc[q], now))
    && (forall q :: 0 <= q < best && proc[q].state == Runnable ==> !Beats(proc[q], proc[best], now))
  }

  /** There is only one such process. */
  lemma BestUnique(proc: seq<Proc>, now: nat, a: nat, b: nat)
    requires Best(proc, now, a) && Best(proc, now, b)
    ensures a == b
  {
  }

  /** The scan of scheduler(). */
  method Scan(proc: seq<Proc>, now: nat) returns (found: bool, best: nat)
    requires forall q :: 0 <= q < |proc| ==> proc[q].priority >= 0
    ensures found <==> exists q :: 0 <= q < |proc| && proc[q].state == Runnable
    ensures found ==> Best(proc, now, best)
  {
    found, best := false, 0;
    var bestPrio, bestWait := -1, 0;
    var p := 0;
    while p < |proc|
      invariant p <= |proc| && (found <==> exists q :: 0 <= q < p && proc[q].state == Runnable)
      invariant !found ==> bestPrio == -1
      invariant found ==>
                Best(proc[..p], now, best) && bestPrio == proc[best].priority && bestWait == Wait(proc[best], now)
    {
      if proc[p].state == Runnable {
        var pr, wait := proc[p].priority, Wait(proc[p], now);
        if pr > bestPrio || (pr == bestPrio && (!found || wait > bestWait)) {
          found, best, bestPrio, bestWait := true, p, pr, wait;
        }
      }
      p := p + 1;
    }
    assert proc[..p] == proc;
  }

  // ---------------------------------------------------------------- the process table

  /** Priorities are in range, no stamp is in the future, and the running process, if there is
      one, has the full budget of its priority. */
  ghost predicate TableOk(t: Tab) {
    && |t.proc| == NPROC && -1 <= t.running < NPROC
    && (forall p :: 0 <= p < NPROC ==> PRI_MIN <= t.proc[p].priority <= PRI_MAX && t.proc[p].stamp <= t.ticks)
    && (forall p :: 0 <= p < NPROC ==> (t.proc[p].state == Running <==> p == t.running))
    && (t.running != -1 ==> t.proc[t.running].budget == Slice(t.proc[t.running].priority))
  }

  // ---------------------------------------------------------------- what each step does to a slot

  function Dispatched(p: Proc, ticks: nat): Proc { p.(state := Running, budget := Slice(p.priority), stamp := ticks) }

  function Ticked(p: Proc): Proc {
    if p.budget - 1 > 0 then p.(budget := p.budget - 1)
    else
      var prio := if p.priority > PRI_MIN then p.priority - 1 else p.priority;
      p.(priority := prio, budget := Slice(prio))
  }

  function Yielded(p: Proc, ticks: nat): Proc {
    var prio := if p.budget > Slice(p.priority) / 2 && p.priority < PRI_MAX then p.priority + 1 else p.priority;
    p.(priority := prio, budget := Slice(prio), stamp := ticks, state := Runnable)
  }

  function Slept(p: Proc, chan: nat): Proc { p.(chan := chan, state := Sleeping) }

  function Woken(p: Proc, chan: nat, ticks: nat): Proc {
    if p.state == Sleeping && p.chan == chan then
      var prio := if p.priority < PRI_MAX then p.priority + 1 else p.priority;
      p.(priority := prio, budget := Slice(prio), stamp := ticks, state := Runnable)
    else p
  }

  /** A killed sleeper wakes up but keeps its stamp. */
  function Killed(p: Proc): Proc { if p.state == Sleeping then p.(state := Runnable) else p }

  function Reset(p: Proc, prio: int, ticks: nat): Proc {
    p.(priority := prio, budget := Slice(prio), stamp := if p.state == Runnable then ticks else p.stamp)
  }

  function Allocated(p: Proc, pid: nat, ticks: nat): Proc {
    p.(pid := pid, state := Used, priority := PRI_DEFAULT, budget := Slice(PRI_DEFAULT), stamp := ticks)
  }

  /** fork() starting its child, exit, and freeproc(). */
  function Turned(p: Proc, to: State, ticks: nat): Proc {
    if p.state == Used && to == Runnable then p.(state := Runnable, stamp := ticks, budget := Slice(p.priority))
    else if p.state == Running && to == Zombie then p.(state := Zombie)
    else if (p.state == Zombie || p.state == Used) && to == Unused
    then Proc(Unused, 0, 0, PRI_DEFAULT, Slice(PRI_DEFAULT), 0)
    else p
  }

  /** The first slot with the pid, or the size of the table. */
  function FirstPid(proc: seq<Proc>, pid: nat): (k: nat)
    ensures k <= |proc| && (k < |proc| ==> proc[k].pid == pid) && forall q :: 0 <= q < k ==> proc[q].pid != pid
  {
    if proc == [] || proc[0].pid == pid then 0 else 1 + FirstPid(proc[1..], pid)
  }

  /** The first unused slot, or the size of the table. */
  function FirstUnused(proc: seq<Proc>): (k: nat)
    ensures k <= |proc| && (k < |proc| ==> proc[k].state == Unused)
    ensures forall q :: 0 <= q < k ==> proc[q].state != Unused
  {
    if proc == [] || proc[0].state == Unused then 0 else 1 + FirstUnused(proc[1..])
  }

  /** A timer interrupt never costs a process priority: the budget was refilled at the dispatch,
      so proc_tick() does not demote, and the yield() that follows promotes until PRI_MAX. */
  lemma TickPromotes(p: Proc, ticks: nat)
    requires PRI_MIN <= p.priority <= PRI_MAX && p.budget == Slice(p.priority)
    ensures Ticked(p).priority == p.priority
    ensures Yielded(Ticked(p), ticks).priority == if p.priority < PRI_MAX then p.priority + 1 else PRI_MAX
  {
  }

  /** n calls of proc_tick() without a dispatch or a yield in between. */
  function Ticks(p: Proc, n: nat): Proc { if n == 0 then p else Ticked(Ticks(p, n - 1)) }

  /** Left alone, proc_tick() would count the budget down and then take one priority away. */
  lemma {:induction false} BudgetRunsOut(p: Proc, n: nat)
    requires PRI_MIN <= p.priority <= PRI_MAX && 0 < n <= p.budget
    ensures n < p.budget ==> Ticks(p, n) == p.(budget := p.budget - n)
    ensures n == p.budget ==>
              var prio := if p.priority == PRI_MIN then PRI_MIN else p.priority - 1;
              Ticks(p, n) == p.(priority := prio, budget := 8 - 2 * prio)
  {
    if n > 1 {
      BudgetRunsOut(p, n - 1);
    } else {
      assert Ticks(p, 0) == p;
    }
  }

  /** yield() promotes exactly who has more than half of a slice left, up to PRI_MAX. */
  lemma YieldPromotes(p: Proc, ticks: nat)
    requires PRI_MIN <= p.priority <= PRI_MAX
    ensures Yielded(p, ticks).priority == p.priority + 1 <==> 2 * p.budget > 8 - 2 * p.priority && p.priority < PRI_MAX
    ensures Yielded(p, ticks).priority == p.priority + 1 || Yielded(p, ticks).priority == p.priority
  {
  }

  // ---------------------------------------------------------------- steps of the table

  datatype Tab = Tab(proc: seq<Proc>, ticks: nat, running: int)

  /** The steps of a run.  Acting on the running process needs one, a dispatch needs none. */
  datatype Op =
    | RunNext
    | ClockTick
    | UserTick
    | KernelYield
    | SleepOn(chan: nat)
    | WakeOn(chan: nat)
    | KillPid(pid: nat)
    | SetPrio(pid: nat, prio: int)
    | AllocSlot(pid: nat)
    | TurnSlot(p: nat, to: State)

  ghost predicate AnyRunnable(proc: seq<Proc>) { exists q :: 0 <= q < |proc| && proc[q].state == Runnable }

  function With(t: Tab, p: nat, q: Proc, running: int): Tab
    requires p < |t.proc|
  {
    Tab(t.proc[p := q], t.ticks, running)
  }

  /** The best runnable process of a table, or -1. */
  ghost function Chosen(proc: seq<Proc>, now: nat): (b: int)
    ensures -1 <= b < |proc| && (b == -1 <==> !AnyRunnable(proc)) && (b != -1 ==> Best(proc, now, b))
    decreases |proc|
  {
    if proc == [] then -1
    else
      var k := |proc| - 1;
      var b := Chosen(proc[..k], now);
      assert forall q :: 0 <= q < k ==> proc[..k][q] == proc[q];
      if proc[k].state == Runnable && (b == -1 || !Beats(proc[b], proc[k], now)) then k else b
  }

  /** The running process, if there is one, becomes p. */
  function Left(t: Tab, p: Proc): Tab
    requires -1 <= t.running < |t.proc|
  {
    if t.running == -1 then t else With(t, t.running, p, -1)
  }

  /** The running process, or some process if there is none. */
  function OnHart(t: Tab): Proc
    requires -1 <= t.running < |t.proc| && |t.proc| > 0
  {
    if t.running == -1 then t.proc[0] else t.proc[t.running]
  }

  /** The table after one step. */
  ghost function Next(t: Tab, op: Op): Tab
    requires TableOk(t)
  {
    match op
    case RunNext =>
      var b := Chosen(t.proc, t.ticks);
      if t.running != -1 || b == -1 then t else With(t, b, Dispatched(t.proc[b], t.ticks), b)
    case ClockTick => t.(ticks := t.ticks + 1)
    case UserTick => Left(t, Yielded(Ticked(OnHart(t)), t.ticks))
    case KernelYield => Left(t, Yielded(OnHart(t), t.ticks))
    case SleepOn(chan) => Left(t, Slept(OnHart(t), chan))
    case WakeOn(chan) => t.(proc := AllWoken(t, chan))
    case KillPid(pid) =>
      var k := FirstPid(t.proc, pid);
      if k < NPROC then With(t, k, Killed(t.proc[k]), t.running) else t
    case SetPrio(pid, prio) =>
      var k := FirstPid(t.proc, pid);
      if k < NPROC && PRI_MIN <= prio <= PRI_MAX then With(t, k, Reset(t.proc[k], prio, t.ticks), t.running) else t
    case AllocSlot(pid) =>
      var k := FirstUnused(t.proc);
      if k < NPROC then With(t, k, Allocated(t.proc[k], pid, t.ticks), t.running) else t
    case TurnSlot(p, to) =>
      if p >= NPROC then t
      else With(t, p, Turned(t.proc[p], to, t.ticks), if p == t.running && to == Zombie then -1 else t.running)
  }

  function AllWoken(t: Tab, chan: nat): seq<Proc> {
    seq(|t.proc|, q requires 0 <= q < |t.proc| => if q == t.running then t.proc[q] else Woken(t.proc[q], chan, t.ticks))
  }

  lemma NextOk(t: Tab, op: Op)
    requires TableOk(t)
    ensures TableOk(Next(t, op))
  {
    hide Best, FirstPid, FirstUnused;
    if t.running != -1 {
      TickPromotes(t.proc[t.running], t.ticks);
    }
  }

  /** The table after a run. */
  ghost function After(t: Tab, ops: seq<Op>): (u: Tab)
    requires TableOk(t)
    ensures TableOk(u)
    decreases |ops|
  {
    if ops == [] then t
    else
      var k := |ops| - 1;
      NextOk(After(t, ops[..k]), ops[k]);
      Next(After(t, ops[..k]), ops[k])
  }

  /** The slots dispatched in a run, in order. */
  ghost function Order(t: Tab, ops: seq<Op>): seq<int>
    requires TableOk(t)
    decreases |ops|
  {
    if ops == [] then []
    else
      var k := |ops| - 1;
      var idle := After(t, ops[..k]).running == -1;
      Order(t, ops[..k])
      + (if ops[k] == RunNext && idle && After(t, ops).running != -1 then [After(t, ops).running] else [])
  }

  /** How often the scheduler looked for a process. */
  ghost function Rounds(t: Tab, ops: seq<Op>): nat
    requires TableOk(t)
    decreases |ops|
  {
    if ops == [] then 0
    else
      var k := |ops| - 1;
      Rounds(t, ops[..k]) + (if ops[k] == RunNext && After(t, ops[..k]).running == -1 then 1 else 0)
  }

  /** The last step of a run. */
  lemma LastStep(t: Tab, ops: seq<Op>, op: Op)
    requires TableOk(t)
    ensures After(t, ops + [op]) == Next(After(t, ops), op)
    ensures var looks := op == RunNext && After(t, ops).running == -1;
            && Rounds(t, ops + [op]) == Rounds(t, ops) + (if looks then 1 else 0)
            && var ran := After(t, ops + [op]).running;
               Order(t, ops + [op]) == Order(t, ops) + (if looks && ran != -1 then [ran] else [])
  {
    assert (ops + [op])[..|ops|] == ops;
  }

  lemma Nothing(t: Tab)
    requires TableOk(t)
    ensures After(t, []) == t && Rounds(t, []) == 0 && Order(t, []) == []
  {
  }

  /** A run in two parts. */
  lemma {:induction false} Join(t: Tab, a: seq<Op>, b: seq<Op>)
    requires TableOk(t)
    ensures After(t, a + b) == After(After(t, a), b) && Rounds(t, a + b) == Rounds(t, a) + Rounds(After(t, a), b)
    ensures Order(t, a + b) == Order(t, a) + Order(After(t, a), b)
    decreases |b|
  {
    hide Next, TableOk;
    if b == [] {
      assert a + b == a;
    } else {
      var k := |b| - 1;
      Join(t, a, b[..k]);
      assert a + b == (a + b[..k]) + [b[k]] && b == b[..k] + [b[k]];
      LastStep(t, a + b[..k], b[k]);
      LastStep(After(t, a), b[..k], b[k]);
    }
  }

  /** procinit(). */
  function Booted(): Tab { Tab(seq(NPROC, _ => Proc(Unused, 0, 0, PRI_MIN, 0, 0)), 0, -1) }

  // ---------------------------------------------------------------- the code

  class Scheduler {
    var proc: seq<Proc>
    var ticks: nat
    var running: int

    ghost function T(): Tab
      reads this
    {
      Tab(proc, ticks, running)
    }

    ghost predicate Valid()
      reads this
    {
      TableOk(T())
    }

    /** procinit(). */
    constructor ()
      ensures Valid() && T() == Booted()
    {
      proc := seq(NPROC, _ => Proc(Unused, 0, 0, PRI_MIN, 0, 0));
      ticks, running := 0, -1;
    }

    /** One round of scheduler(). */
    method Dispatch() returns (found: bool, best: nat)
      requires Valid() && running == -1
      modifies this`proc, this`running
      ensures Valid() && T() == Next(old(T()), RunNext) && (found <==> AnyRunnable(old(proc)))
      ensures found ==> best < NPROC && running == best
    {
      hide Slice;
      found, best := Scan(proc, ticks);
      if found {
        BestUnique(proc, ticks, best, Chosen(proc, ticks));
        proc := proc[best := proc[best].(state := Running, budget := Slice(proc[best].priority), stamp := ticks)];
        running := best;
      }
    }

    /** proc_tick() of the running process. */
    method ProcTick()
      requires |proc| == NPROC && 0 <= running < NPROC && proc[running].state == Running
      modifies this`proc
      ensures proc == old(proc)[running := Ticked(old(proc)[running])]
    {
      var p := proc[running].(budget := proc[running].budget - 1);
      if p.budget <= 0 {
        if p.priority > PRI_MIN {
          p := p.(priority := p.priority - 1);
        }
        p := p.(budget := Slice(p.priority));
      }
      proc := proc[running := p];
    }

    /** yield() of the running process. */
    method Yield()
      requires |proc| == NPROC && 0 <= running < NPROC
      modifies this`proc, this`running
      ensures running == -1 && proc == old(proc)[old(running) := Yielded(old(proc)[old(running)], ticks)]
    {
      var p := proc[running];
      var slice := Slice(p.priority);
      if p.budget > slice / 2 && p.priority < PRI_MAX {
        p := p.(priority := p.priority + 1);
      }
      proc := proc[running := p.(budget := Slice(p.priority), stamp := ticks, state := Runnable)];
      running := -1;
    }

    /** sleep() of the running process. */
    method Sleep(chan: nat)
      requires |proc| == NPROC && 0 <= running < NPROC
      modifies this`proc, this`running
      ensures running == -1 && proc == old(proc)[old(running) := Slept(old(proc)[old(running)], chan)]
    {
      proc := proc[running := proc[running].(chan := chan, state := Sleeping)];
      running := -1;
    }

    /** wakeup(). */
    method Wakeup(chan: nat)
      requires |proc| == NPROC
      modifies this`proc
      ensures |proc| == NPROC
      ensures forall q :: 0 <= q < NPROC ==>
              proc[q] == if q == running then old(proc)[q] else Woken(old(proc)[q], chan, ticks)
    {
      var p := 0;
      while p < NPROC
        invariant p <= NPROC && |proc| == NPROC
        invariant forall q :: 0 <= q < p ==>
                  proc[q] == if q == running then old(proc)[q] else Woken(old(proc)[q], chan, ticks)
        invariant forall q :: p <= q < NPROC ==> proc[q] == old(proc)[q]
      {
        if p != running && proc[p].state == Sleeping && proc[p].chan == chan {
          var q := proc[p];
          if q.priority < PRI_MAX {
            q := q.(priority := q.priority + 1);
          }
          proc := proc[p := q.(budget := Slice(q.priority), stamp := ticks, state := Runnable)];
        }
        p := p + 1;
      }
    }

    /** The loops of kkill() and setpriority(): the first slot with the given pid. */
    method Find(pid: nat) returns (k: nat)
      requires |proc| == NPROC
      ensures k == FirstPid(proc, pid)
    {
      k := 0;
      while k < NPROC
        invariant k <= NPROC && forall q :: 0 <= q < k ==> proc[q].pid != pid
      {
        if proc[k].pid == pid {
          return;
        }
        k := k + 1;
      }
    }

    /** kkill(): the first process with the pid, if it sleeps, wakes up but keeps its stamp. */
    method Kill(pid: nat)
      requires |proc| == NPROC
      modifies this`proc
      ensures var k := FirstPid(old(proc), pid);
              proc == if k < NPROC then old(proc)[k := Killed(old(proc)[k])] else old(proc)
    {
      hide FirstPid;
      var k := Find(pid);
      if k < NPROC && proc[k].state == Sleeping {
        proc := proc[k := proc[k].(state := Runnable)];
      }
    }

    /** setpriority(). */
    method SetPriority(pid: nat, prio: int) returns (r: int)
      requires |proc| == NPROC
      modifies this`proc
      ensures var k := FirstPid(old(proc), pid);
              if k < NPROC && PRI_MIN <= prio <= PRI_MAX
              then r == 0 && proc == old(proc)[k := Reset(old(proc)[k], prio, ticks)]
              else r == -1 && proc == old(proc)
    {
      hide FirstPid;
      if prio < PRI_MIN || prio > PRI_MAX {
        return -1;
      }
      var k := Find(pid);
      if k == NPROC {
        return -1;
      }
      var q := proc[k].(priority := prio, budget := Slice(prio));
      if q.state == Runnable {
        q := q.(stamp := ticks);
      }
      proc := proc[k := q];
      return 0;
    }

    /** allocproc(): the first unused slot, if there is one. */
    method Alloc(pid: nat)
      requires |proc| == NPROC
      modifies this`proc
      ensures var k := FirstUnused(old(proc));
              proc == if k < NPROC then old(proc)[k := Allocated(old(proc)[k], pid, ticks)] else old(proc)
    {
      var p := 0;
      while p < NPROC
        invariant p <= NPROC && proc == old(proc) && forall q :: 0 <= q < p ==> proc[q].state != Unused
      {
        if proc[p].state == Unused {
          proc := proc[p := proc[p].(pid := pid, state := Used, priority := PRI_DEFAULT,
            budget := Slice(PRI_DEFAULT), stamp := ticks)];
          return;
        }
        p := p + 1;
      }
    }

    /** Any other step of one slot: fork() starting its child, exit, and freeproc(). */
    method Turn(p: nat, to: State)
      requires Valid() && p < NPROC
      modifies this`proc, this`running
      ensures proc == old(proc)[p := Turned(old(proc)[p], to, ticks)]
      ensures running == if p == old(running) && to == Zombie then -1 else old(running)
    {
      var q := proc[p];
      if q.state == Used && to == Runnable {
        proc := proc[p := q.(state := Runnable, stamp := ticks, budget := Slice(q.priority))];
      } else if q.state == Running && to == Zombie {
        proc := proc[p := q.(state := Zombie)];
        running := -1;
      } else if (q.state == Zombie || q.state == Used) && to == Unused {
        proc := proc[p := Proc(Unused, 0, 0, PRI_DEFAULT, Slice(PRI_DEFAULT), 0)];
      }
    }

    method Step(op: Op)
      requires Valid()
      modifies this
      ensures Valid() && T() == Next(old(T()), op)
    {
      hide Best, Slice, FirstPid, FirstUnused, AnyRunnable, Chosen;
      ghost var t := T();
      match op {
        case RunNext =>
          if running == -1 {
            var _, _ := Dispatch();
          }
        case ClockTick => ticks := ticks + 1;
        case UserTick =>
          if running != -1 {
            ProcTick();
            Yield();
          }
        case KernelYield =>
          if running != -1 {
            Yield();
          }
        case SleepOn(chan) =>
          if running != -1 {
            Sleep(chan);
          }
        case WakeOn(chan) => Wakeup(chan);
        case KillPid(pid) => Kill(pid);
        case SetPrio(pid, prio) => var _ := SetPriority(pid, prio);
        case AllocSlot(pid) => Alloc(pid);
        case TurnSlot(p, to) =>
          if p < NPROC {
            Turn(p, to);
          }
      }
      NextOk(t, op);
    }

    /** A run takes the steps of the table one by one; BoundedOvertaking and Unbounded are about
        such runs. */
    method Run(ops: seq<Op>)
      requires Valid()
      modifies this
      ensures Valid() && T() == After(old(T()), ops)
    {
      hide TableOk, Next;
      var k := 0;
      assert ops[..0] == [];
      while k < |ops|
        invariant k <= |ops| && Valid() && T() == After(old(T()), ops[..k])
      {
        assert ops[..k + 1] == ops[..k] + [ops[k]];
        LastStep(old(T()), ops[..k], ops[k]);
        Step(ops[k]);
        k := k + 1;
      }
      assert ops[..k] == ops;
    }
  }

  // ---------------------------------------------------------------- bounded overtaking

  /** p is runnable at the highest priority since time s. */
  predicate Waiting(proc: seq<Proc>, p: nat, s: nat) {
    p < |proc| && proc[p].state == Runnable && proc[p].priority == PRI_MAX && proc[p].stamp == s
  }

  /** Who overtakes p, waiting since s, has a stamp below this: slot 0 wins every tie. */
  function Limit(p: nat, s: nat): nat { if p == 0 then s else s + 1 }

  /** Could be chosen with a stamp below e. */
  predicate Stale(p: Proc, e: nat) {
    (p.state == Sleeping || p.state == Runnable || p.state == Running) && p.stamp < e
  }

  /** No process became stale. */
  predicate NoneStaler(before: seq<Proc>, after: seq<Proc>, e: nat) {
    |before| == |after| && forall q :: 0 <= q < |before| && Stale(after[q], e) ==> Stale(before[q], e)
  }

  /** The step resets the priority of the process with this pid. */
  predicate Resets(op: Op, pid: nat) { op.SetPrio? && op.pid == pid }

  predicate NoResets(ops: seq<Op>, pid: nat) { forall i :: 0 <= i < |ops| ==> !Resets(ops[i], pid) }

  /** A process is overtaken only by one that has been waiting longer, or as long and comes before
      it in the table: hence by a stale one, and the dispatch ends that. */
  lemma OvertakerStale(proc: seq<Proc>, now: nat, best: nat, p: nat, s: nat)
    requires Best(proc, now, best) && Waiting(proc, p, s) && Limit(p, s) <= now && best != p
    requires forall q :: 0 <= q < |proc| ==> proc[q].priority <= PRI_MAX && proc[q].stamp <= now
    ensures Stale(proc[best], Limit(p, s))
  {
    assert Beats(proc[best], proc[p], now);
  }

  /** Unless it is dispatched, p goes on waiting, and nobody becomes stale. */
  ghost predicate Kept(t: Tab, u: Tab, p: nat, s: nat) {
    && Limit(p, s) <= u.ticks && Waiting(u.proc, p, s) && NoneStaler(t.proc, u.proc, Limit(p, s))
    && p < |t.proc| && u.proc[p].pid == t.proc[p].pid
  }

  lemma ChosenKeeps(t: Tab, p: nat, s: nat)
    requires TableOk(t) && Waiting(t.proc, p, s) && Limit(p, s) <= t.ticks && t.running == -1
    ensures var u := Next(t, RunNext);
            && 0 <= u.running < NPROC
            && (u.running != p ==>
                  Kept(t, u, p, s) && Stale(t.proc[u.running], Limit(p, s)) && !Stale(u.proc[u.running], Limit(p, s)))
  {
    hide Best, Slice;
    var u := Next(t, RunNext);
    assert AnyRunnable(t.proc) by { assert t.proc[p].state == Runnable; }
    if u.running != p {
      OvertakerStale(t.proc, t.ticks, u.running, p, s);
    }
  }

  lemma OtherKeeps(t: Tab, op: Op, p: nat, s: nat)
    requires TableOk(t) && Waiting(t.proc, p, s) && Limit(p, s) <= t.ticks && (op.RunNext? ==> t.running != -1)
    requires !Resets(op, t.proc[p].pid)
    ensures Kept(t, Next(t, op), p, s)
  {
    hide Best, Slice;
  }

  /** Slots dispatched once each, none of them p, and none of them stale any more. */
  predicate Once(order: seq<int>, proc: seq<Proc>, p: nat, e: nat) {
    && (forall i, j :: 0 <= i < j < |order| ==> order[i] != order[j])
    && forall i :: 0 <= i < |order| ==> 0 <= order[i] < |proc| && order[i] != p && !Stale(proc[order[i]], e)
  }

  lemma OnceKept(order: seq<int>, before: seq<Proc>, after: seq<Proc>, p: nat, e: nat)
    requires Once(order, before, p, e) && NoneStaler(before, after, e)
    ensures Once(order, after, p, e)
  {
    hide Stale;
    forall i | 0 <= i < |order| ensures !Stale(after[order[i]], e) { assert !Stale(before[order[i]], e); }
  }

  lemma OnceMore(order: seq<int>, before: seq<Proc>, after: seq<Proc>, p: nat, e: nat, q: nat)
    requires Once(order, before, p, e) && NoneStaler(before, after, e)
    requires q < |before| && q != p && Stale(before[q], e) && !Stale(after[q], e)
    ensures Once(order + [q], after, p, e)
  {
    hide Stale;
    OnceKept(order, before, after, p, e);
    forall i | 0 <= i < |order| ensures order[i] != q { assert !Stale(before[order[i]], e); }
  }

  /** After a run that has not dispatched p. */
  ghost predicate Passed(t: Tab, ops: seq<Op>, p: nat, s: nat)
    requires TableOk(t)
  {
    var u := After(t, ops);
    && Limit(p, s) <= u.ticks && Waiting(u.proc, p, s) && p < |t.proc| && u.proc[p].pid == t.proc[p].pid
    && |Order(t, ops)| == Rounds(t, ops) && Once(Order(t, ops), u.proc, p, Limit(p, s))
  }

  lemma PassedStep(t: Tab, ops: seq<Op>, op: Op, p: nat, s: nat)
    requires TableOk(t) && Passed(t, ops, p, s) && !Resets(op, t.proc[p].pid) && p !in Order(t, ops + [op])
    ensures Passed(t, ops + [op], p, s)
  {
    hide TableOk, Next, Stale, Once, NoneStaler, Order, Rounds, After;
    var before, after := After(t, ops), After(t, ops + [op]);
    LastStep(t, ops, op);
    if op == RunNext && before.running == -1 {
      ChosenKeeps(before, p, s);
      assert after.running in Order(t, ops + [op]);
      Lengths(before);
      OnceMore(Order(t, ops), before.proc, after.proc, p, Limit(p, s), after.running);
    } else {
      OtherKeeps(before, op, p, s);
      assert Order(t, ops) + [] == Order(t, ops);
      OnceKept(Order(t, ops), before.proc, after.proc, p, Limit(p, s));
    }
  }

  lemma Lengths(t: Tab)
    requires TableOk(t)
    ensures |t.proc| == NPROC
  {
  }

  lemma {:induction false} PassedAll(t: Tab, ops: seq<Op>, p: nat, s: nat)
    requires TableOk(t) && Waiting(t.proc, p, s) && Limit(p, s) <= t.ticks
    requires NoResets(ops, t.proc[p].pid) && p !in Order(t, ops)
    ensures Passed(t, ops, p, s)
    decreases |ops|
  {
    hide TableOk, Passed, Waiting, Next, Limit;
    if ops == [] {
      PassedNone(t, p, s);
    } else {
      var k := |ops| - 1;
      assert ops == ops[..k] + [ops[k]];
      LastStep(t, ops[..k], ops[k]);
      PassedAll(t, ops[..k], p, s);
      PassedStep(t, ops[..k], ops[k], p, s);
    }
  }

  lemma PassedNone(t: Tab, p: nat, s: nat)
    requires TableOk(t) && Waiting(t.proc, p, s) && Limit(p, s) <= t.ticks
    ensures Passed(t, [], p, s)
  {
  }

  /** Bounded overtaking: whatever the processes do, a runnable process of the highest priority
      whose priority is not reset is dispatched within NPROC rounds of the scheduler, and before
      it every other slot at most once; in slot 0 at once, in another slot from the moment the
      clock has moved past its stamp. */
  lemma BoundedOvertaking(t: Tab, ops: seq<Op>, p: nat, s: nat)
    requires TableOk(t) && Waiting(t.proc, p, s) && (p == 0 || s < t.ticks) && NoResets(ops, t.proc[p].pid)
    ensures Rounds(t, ops) >= NPROC ==> p in Order(t, ops)
    ensures p !in Order(t, ops) ==>
              var order := Order(t, ops);
              |order| == Rounds(t, ops) && forall i, j :: 0 <= i < j < |order| ==> order[i] != order[j]
  {
    if p !in Order(t, ops) {
      PassedAll(t, ops, p, s);
      FewerThanAll(Order(t, ops), p);
    }
  }

  lemma FewerThanAll(order: seq<int>, p: nat)
    requires p < NPROC && forall i, j :: 0 <= i < j < |order| ==> order[i] != order[j]
    requires forall i :: 0 <= i < |order| ==> 0 <= order[i] < NPROC && order[i] != p
    ensures |order| < NPROC
  {
    hide Below;
    var all: seq<nat> := seq(|order| + 1, i requires 0 <= i <= |order| => if i < |order| then order[i] else p);
    BelowSize(NPROC);
    DistinctSize(all, Below(NPROC));
  }

  // ---------------------------------------------------------------- who can run

  predicate Live(p: Proc) { p.state == Runnable || p.state == Running }

  /** The step takes the running process p off the hart for good, or until it is woken. */
  predicate Stops(t: Tab, op: Op, p: nat) { p == t.running && (op.SleepOn? || op == TurnSlot(p, Zombie)) }

  /** The step wakes p up, or starts it. */
  predicate Starts(t: Tab, op: Op, p: nat)
    requires p < |t.proc|
  {
    var q := t.proc[p];
    || (q.state == Sleeping && (op == WakeOn(q.chan) || (op.KillPid? && FirstPid(t.proc, op.pid) == p)))
    || (q.state == Used && op == TurnSlot(p, Runnable))
  }

  /** A process that can run goes on being able to unless it sleeps or exits itself; one that cannot
      is able to again exactly if it is woken, killed in its sleep or started. */
  lemma LifeCycle(t: Tab, op: Op, p: nat)
    requires TableOk(t) && p < NPROC
    ensures |Next(t, op).proc| == NPROC
    ensures Live(Next(t, op).proc[p]) <==> if Live(t.proc[p]) then !Stops(t, op, p) else Starts(t, op, p)
  {
    hide Slice, FirstPid, FirstUnused;
  }

  /** Over whole runs: between two moments at which it can and cannot run, it stopped itself. */
  lemma {:induction false} StoppedItself(t: Tab, ops: seq<Op>, p: nat) returns (k: nat)
    requires TableOk(t) && p < NPROC && Live(t.proc[p]) && !Live(After(t, ops).proc[p])
    ensures k < |ops| && |After(t, ops[..k]).proc| == NPROC && Live(After(t, ops[..k]).proc[p])
    ensures Stops(After(t, ops[..k]), ops[k], p)
    decreases |ops|
  {
    hide Next, TableOk;
    Nothing(t);
    k := |ops| - 1;
    Lengths(After(t, ops[..k]));
    if Live(After(t, ops[..k]).proc[p]) {
      LifeCycle(After(t, ops[..k]), ops[k], p);
    } else {
      k := StoppedItself(t, ops[..k], p);
      assert ops[..|ops| - 1][..k] == ops[..k];
    }
  }

  /** The hart is never left idle: a round dispatches exactly if somebody can run, whatever has
      happened before. */
  lemma NeverIdle(t: Tab, ops: seq<Op>)
    requires TableOk(t)
    ensures var u := After(t, ops + [RunNext]);
            u.running != -1 <==> exists p :: 0 <= p < NPROC && Live(After(t, ops).proc[p])
  {
    hide Slice, Best;
    LastStep(t, ops, RunNext);
    var v := After(t, ops);
    if v.running != -1 {
      assert Live(v.proc[v.running]);
    } else if p :| 0 <= p < NPROC && Live(v.proc[p]) {
      assert v.proc[p].state == Runnable;
      assert AnyRunnable(v.proc);
    }
  }

  /** A process that is preempted or yields can run on, and the next round dispatches somebody. */
  lemma PreemptedRuns(t: Tab, op: Op)
    requires TableOk(t) && t.running != -1 && (op == UserTick || op == KernelYield)
    ensures var u := Next(t, op);
            && TableOk(u) && u.running == -1
            && u.proc[t.running].state == Runnable && u.proc[t.running].stamp == t.ticks
            && Next(u, RunNext).running != -1
  {
    hide Slice, Best;
    NextOk(t, op);
    var u := Next(t, op);
    assert u.proc[t.running].state == Runnable;
    assert AnyRunnable(u.proc);
  }

  lemma WaitStays(t: Tab, op: Op, p: nat, s: nat)
    requires TableOk(t) && Waiting(t.proc, p, s) && !Resets(op, t.proc[p].pid)
    ensures var u := Next(t, op);
            p < |u.proc| && u.proc[p].pid == t.proc[p].pid
            && (Waiting(u.proc, p, s) || (op == RunNext && t.running == -1 && u.running == p))
  {
    hide Best, Slice;
  }

  lemma {:induction false} WaitsOn(t: Tab, ops: seq<Op>, p: nat, s: nat)
    requires TableOk(t) && Waiting(t.proc, p, s) && NoResets(ops, t.proc[p].pid) && p !in Order(t, ops)
    ensures var u := After(t, ops); Waiting(u.proc, p, s) && u.proc[p].pid == t.proc[p].pid
    decreases |ops|
  {
    hide TableOk, Next, Waiting;
    if ops != [] {
      var k := |ops| - 1;
      assert ops == ops[..k] + [ops[k]];
      LastStep(t, ops[..k], ops[k]);
      WaitsOn(t, ops[..k], p, s);
      WaitStays(After(t, ops[..k]), ops[k], p, s);
    }
  }

  lemma RunningSlot(t: Tab)
    requires TableOk(t)
    ensures -1 <= t.running < NPROC == |t.proc|
  {
  }

  lemma PreemptedWaits(t: Tab, op: Op)
    requires TableOk(t) && t.running != -1 && (op == UserTick || op == KernelYield)
    requires t.proc[t.running].priority >= PRI_MAX - 1
    ensures var u := Next(t, op); Waiting(u.proc, t.running, t.ticks) && u.proc[t.running].pid == t.proc[t.running].pid
  {
  }

  /** A process preempted next to or at the highest priority waits at the highest with the present
      stamp.  Once the clock has moved it is dispatched within NPROC rounds, or was already. */
  lemma PreemptedReturns(t: Tab, op: Op, first: seq<Op>, then': seq<Op>)
    requires TableOk(t) && t.running != -1 && (op == UserTick || op == KernelYield)
    requires t.proc[t.running].priority >= PRI_MAX - 1
    requires NoResets(first, t.proc[t.running].pid) && NoResets(then', t.proc[t.running].pid)
    ensures var p, u := t.running, Next(t, op);
            && TableOk(u) && Waiting(u.proc, p, t.ticks)
            && var v := After(u, first);
               (v.ticks > t.ticks && Rounds(v, then') >= NPROC ==> p in Order(u, first + then'))
  {
    hide TableOk, Next, Order, Rounds, After;
    var p, u := t.running, Next(t, op);
    NextOk(t, op);
    RunningSlot(t);
    PreemptedWaits(t, op);
    Join(u, first, then');
    var v := After(u, first);
    if p !in Order(u, first) {
      WaitsOn(u, first, p, t.ticks);
      if v.ticks > t.ticks {
        BoundedOvertaking(v, then', p, t.ticks);
      }
    }
  }

  /** Slots in use have the pids given to them; so kill() and setpriority() of such a pid never find
      an unused slot. */
  ghost predicate FreeOk(t: Tab) { forall q :: 0 <= q < |t.proc| && t.proc[q].state == Unused ==> t.proc[q].pid == 0 }

  lemma FreeStep(t: Tab, op: Op)
    requires TableOk(t) && FreeOk(t)
    ensures FreeOk(Next(t, op))
  {
    hide Slice, FirstPid, FirstUnused;
  }

  lemma {:induction false} FreeSlots(ops: seq<Op>)
    ensures TableOk(Booted()) && FreeOk(After(Booted(), ops))
    ensures forall pid: nat :: pid > 0 ==>
              var t := After(Booted(), ops);
              FirstPid(t.proc, pid) < |t.proc| ==> t.proc[FirstPid(t.proc, pid)].state != Unused
    decreases |ops|
  {
    hide Next;
    if ops != [] {
      FreeSlots(ops[..|ops| - 1]);
      FreeStep(After(Booted(), ops[..|ops| - 1]), ops[|ops| - 1]);
    }
  }

  /** setpriority() to the highest priority sends a runnable process to the end of the queue. */
  lemma ResetWaits(t: Tab, pid: nat)
    requires TableOk(t) && FirstPid(t.proc, pid) < NPROC && t.proc[FirstPid(t.proc, pid)].state == Runnable
    ensures Waiting(Next(t, SetPrio(pid, PRI_MAX)).proc, FirstPid(t.proc, pid), t.ticks)
  {
    hide FirstPid;
  }

  // ---------------------------------------------------------------- unbounded overtaking

  /** Slot q neither is runnable nor will be woken on channel 7. */
  predicate Aside(q: Proc) { q.state != Runnable && (q.state == Sleeping ==> q.chan != 7) }

  /** p is runnable, and everybody else is aside. */
  ghost predicate Alone(t: Tab, p: nat) {
    && TableOk(t) && t.running == -1 && p < NPROC && t.proc[p].state == Runnable
    && forall q :: 0 <= q < NPROC && q != p ==> Aside(t.proc[q])
  }

  /** Slots 0 and p are runnable at the highest priority with the present time as stamp, and
      everybody else is aside. */
  ghost predicate Tied(t: Tab, p: nat) {
    && TableOk(t) && t.running == -1 && 0 < p < NPROC && Waiting(t.proc, 0, t.ticks) && Waiting(t.proc, p, t.ticks)
    && forall q :: 0 < q < NPROC && q != p ==> Aside(t.proc[q])
  }

  lemma AloneRuns(t: Tab, p: nat)
    requires Alone(t, p)
    ensures Next(t, RunNext) == With(t, p, Dispatched(t.proc[p], t.ticks), p)
  {
    assert AnyRunnable(t.proc) by { assert t.proc[p].state == Runnable; }
    assert Best(t.proc, t.ticks, p);
    BestUnique(t.proc, t.ticks, p, Chosen(t.proc, t.ticks));
  }

  lemma TiedRuns(t: Tab, p: nat)
    requires Tied(t, p)
    ensures Next(t, RunNext) == With(t, 0, Dispatched(t.proc[0], t.ticks), 0)
  {
    assert AnyRunnable(t.proc) by { assert t.proc[0].state == Runnable; }
    assert Best(t.proc, t.ticks, 0);
    BestUnique(t.proc, t.ticks, 0, Chosen(t.proc, t.ticks));
  }

  /** Running slot p, going to sleep and being woken. */
  function Nap(): seq<Op> { [RunNext, SleepOn(7), WakeOn(7)] }

  function Naps(n: nat): seq<Op> { if n == 0 then [] else Naps(n - 1) + Nap() }

  function Napped(p: Proc, ticks: nat): Proc { Woken(Slept(Dispatched(p, ticks), 7), 7, ticks) }

  /** What the three steps come to when RunNext picks p and nobody else sleeps on channel 7. */
  lemma NapOf(t: Tab, p: nat)
    requires TableOk(t) && t.running == -1 && p < NPROC
    requires Next(t, RunNext) == With(t, p, Dispatched(t.proc[p], t.ticks), p)
    requires forall q :: 0 <= q < NPROC && q != p && t.proc[q].state == Sleeping ==> t.proc[q].chan != 7
    ensures After(t, Nap()) == With(t, p, Napped(t.proc[p], t.ticks), -1)
    ensures Order(t, Nap()) == [p] && Rounds(t, Nap()) == 1
  {
    hide Slice, Next;
    Three(t, RunNext, SleepOn(7), WakeOn(7));
    Sleeps(t, p, 7);
    Wakes(With(t, p, Slept(Dispatched(t.proc[p], t.ticks), 7), -1), p, 7);
  }

  /** The process just dispatched goes to sleep. */
  lemma Sleeps(t: Tab, p: nat, chan: nat)
    requires p < |t.proc| == NPROC && TableOk(With(t, p, Dispatched(t.proc[p], t.ticks), p))
    ensures Next(With(t, p, Dispatched(t.proc[p], t.ticks), p), SleepOn(chan))
         == With(t, p, Slept(Dispatched(t.proc[p], t.ticks), chan), -1)
  {
    hide Slice;
  }

  /** Only p sleeps on the channel. */
  lemma Wakes(t: Tab, p: nat, chan: nat)
    requires TableOk(t) && t.running == -1 && p < NPROC
    requires forall q :: 0 <= q < NPROC && q != p && t.proc[q].state == Sleeping ==> t.proc[q].chan != chan
    ensures Next(t, WakeOn(chan)) == With(t, p, Woken(t.proc[p], chan, t.ticks), -1)
  {
    hide Slice;
    assert AllWoken(t, chan) == t.proc[p := Woken(t.proc[p], chan, t.ticks)];
  }

  lemma Three(t: Tab, a: Op, b: Op, c: Op)
    requires TableOk(t) && !b.RunNext? && !c.RunNext?
    ensures TableOk(Next(t, a)) && TableOk(Next(Next(t, a), b)) && After(t, [a, b, c]) == Next(Next(Next(t, a), b), c)
    ensures var looks := a == RunNext && t.running == -1;
            && Rounds(t, [a, b, c]) == (if looks then 1 else 0)
            && Order(t, [a, b, c]) == if looks && Next(t, a).running != -1 then [Next(t, a).running] else []
  {
    hide Next, TableOk;
    NextOk(t, a);
    NextOk(Next(t, a), b);
    LastStep(t, [], a);
    LastStep(t, [a], b);
    LastStep(t, [a, b], c);
    assert [] + [a] == [a] && [a] + [b] == [a, b] && [a, b] + [c] == [a, b, c];
  }

  /** Within one tick there is no bound: the first in the table can sleep, wake up and run again
      any number of times. */
  lemma {:induction false} SameTick(t: Tab, p: nat, n: nat)
    requires Tied(t, p)
    ensures Tied(After(t, Naps(n)), p) && Rounds(t, Naps(n)) == n && p !in Order(t, Naps(n))
    ensures NoResets(Naps(n), t.proc[p].pid)
  {
    hide Slice, Next, TableOk, After, Order, Rounds;
    if n == 0 {
      Nothing(t);
    } else {
      SameTick(t, p, n - 1);
      var u := After(t, Naps(n - 1));
      TiedRuns(u, p);
      NapOf(u, 0);
      Join(t, Naps(n - 1), Nap());
      StillTied(u, p);
    }
  }

  lemma StillTied(t: Tab, p: nat)
    requires Tied(t, p) && TableOk(With(t, 0, Napped(t.proc[0], t.ticks), -1))
    ensures Tied(With(t, 0, Napped(t.proc[0], t.ticks), -1), p)
  {
  }

  /** allocproc() and fork()'s last step, for the first unused slot k. */
  function Spawn(k: nat): seq<Op> { [AllocSlot(k + 1), TurnSlot(k, Runnable)] }

  function Newborn(q: Proc, k: nat, ticks: nat): Proc { Turned(Allocated(q, k + 1, ticks), Runnable, ticks) }

  lemma Two(t: Tab, a: Op, b: Op)
    requires TableOk(t)
    ensures TableOk(Next(t, a)) && After(t, [a, b]) == Next(Next(t, a), b)
  {
    hide Next, TableOk;
    NextOk(t, a);
    LastStep(t, [], a);
    LastStep(t, [a], b);
    assert [] + [a] == [a] && [a] + [b] == [a, b];
  }

  /** Slots below k are in use and aside, those from k on unused. */
  ghost predicate Filled(t: Tab, k: nat) {
    && TableOk(t) && t.running == -1 && k <= NPROC
    && (forall q :: 0 <= q < k ==> t.proc[q].state != Unused && Aside(t.proc[q]))
    && forall q :: k <= q < NPROC ==> t.proc[q].state == Unused
  }

  lemma Spawned(t: Tab, k: nat)
    requires Filled(t, k) && k < NPROC
    ensures After(t, Spawn(k)) == With(t, k, Newborn(t.proc[k], k, t.ticks), -1) && Alone(After(t, Spawn(k)), k)
  {
    hide Slice, Next;
    Two(t, AllocSlot(k + 1), TurnSlot(k, Runnable));
    Allocates(t, k);
    var q := Allocated(t.proc[k], k + 1, t.ticks);
    Turns(With(t, k, q, -1), k);
    assert t.proc[k := q][k := Turned(q, Runnable, t.ticks)] == t.proc[k := Turned(q, Runnable, t.ticks)];
    NowAlone(t, k);
  }

  lemma Allocates(t: Tab, k: nat)
    requires Filled(t, k) && k < NPROC
    ensures |t.proc| == NPROC && Next(t, AllocSlot(k + 1)) == With(t, k, Allocated(t.proc[k], k + 1, t.ticks), -1)
  {
    hide Slice, FirstUnused, TableOk;
    Lengths(t);
    assert t.proc[k].state == Unused;
  }

  lemma Turns(t: Tab, k: nat)
    requires TableOk(t) && t.running == -1 && k < NPROC
    ensures Next(t, TurnSlot(k, Runnable)) == With(t, k, Turned(t.proc[k], Runnable, t.ticks), -1)
  {
    hide Slice;
  }

  lemma NowAlone(t: Tab, k: nat)
    requires Filled(t, k) && k < NPROC && TableOk(With(t, k, Newborn(t.proc[k], k, t.ticks), -1))
    ensures Alone(With(t, k, Newborn(t.proc[k], k, t.ticks), -1), k)
  {
    hide Slice;
  }

  lemma AloneNaps(t: Tab, p: nat)
    requires Alone(t, p)
    ensures After(t, Nap()) == With(t, p, Napped(t.proc[p], t.ticks), -1) && Alone(After(t, Nap()), p)
  {
    hide Slice, Next;
    AloneRuns(t, p);
    NapOf(t, p);
  }

  /** Born and raised to the highest priority. */
  function Raised(q: Proc, k: nat, ticks: nat): Proc { Napped(Napped(Newborn(q, k, ticks), ticks), ticks) }

  function Raise(k: nat): seq<Op> { Spawn(k) + Nap() + Nap() }

  lemma RaisedOf(t: Tab, k: nat)
    requires Filled(t, k) && k < NPROC
    ensures After(t, Raise(k)) == With(t, k, Raised(t.proc[k], k, t.ticks), -1) && Alone(After(t, Raise(k)), k)
    ensures Waiting(After(t, Raise(k)).proc, k, t.ticks)
  {
    hide After, Next, TableOk, Aside;
    Spawned(t, k);
    var u := After(t, Spawn(k));
    AloneNaps(u, k);
    var v := After(u, Nap());
    AloneNaps(v, k);
    Join(t, Spawn(k), Nap());
    Join(t, Spawn(k) + Nap(), Nap());
    Lengths(t);
  }

  /** The only runnable process goes to sleep on another channel than 7. */
  function Park(chan: nat): seq<Op> { [RunNext, SleepOn(chan)] }

  lemma ParkedOf(t: Tab, k: nat, chan: nat)
    requires Alone(t, k) && chan != 7
    ensures After(t, Park(chan)) == With(t, k, Slept(Dispatched(t.proc[k], t.ticks), chan), -1)
  {
    hide Slice, Next;
    Two(t, RunNext, SleepOn(chan));
    AloneRuns(t, k);
    Sleeps(t, k, chan);
  }

  /** Slot 0 sleeps at the highest priority on channel 8, the other slots below k on channel 9. */
  ghost predicate Parked(t: Tab, k: nat) {
    && Filled(t, k) && 0 < k && t.proc[0].state == Sleeping && t.proc[0].chan == 8 && t.proc[0].priority == PRI_MAX
    && forall q :: 0 < q < k ==> t.proc[q].state == Sleeping && t.proc[q].chan == 9
  }

  function Fill(k: nat): seq<Op>
    requires 0 < k
  {
    if k == 1 then Raise(0) + Park(8) else Fill(k - 1) + Spawn(k - 1) + Park(9)
  }

  lemma ParkFirst(t: Tab)
    requires Filled(t, 0)
    ensures Parked(After(t, Raise(0) + Park(8)), 1)
  {
    hide After, Next;
    RaisedOf(t, 0);
    ParkedOf(After(t, Raise(0)), 0, 8);
    Join(t, Raise(0), Park(8));
  }

  lemma ParkMore(t: Tab, k: nat)
    requires Parked(t, k) && k < NPROC
    ensures Parked(After(t, Spawn(k) + Park(9)), k + 1)
  {
    hide After, Next, Slice;
    Spawned(t, k);
    ParkedOf(After(t, Spawn(k)), k, 9);
    Join(t, Spawn(k), Park(9));
  }

  lemma {:induction false} FillParks(k: nat)
    requires 0 < k <= NPROC
    ensures TableOk(Booted()) && Parked(After(Booted(), Fill(k)), k)
  {
    hide After, Next, TableOk, Parked;
    BootedEmpty();
    if k == 1 {
      ParkFirst(Booted());
    } else {
      FillParks(k - 1);
      ParkMore(After(Booted(), Fill(k - 1)), k - 1);
      Join(Booted(), Fill(k - 1), Spawn(k - 1) + Park(9));
      assert Fill(k - 1) + (Spawn(k - 1) + Park(9)) == Fill(k);
    }
  }

  lemma BootedEmpty()
    ensures TableOk(Booted()) && Filled(Booted(), 0)
  {
  }

  /** From boot to a tie of slots 0 and p. */
  function Setup(p: nat): seq<Op>
    requires 0 < p
  {
    Fill(p) + (Raise(p) + [WakeOn(8)])
  }

  lemma TieLast(t: Tab, p: nat)
    requires Parked(t, p) && p < NPROC
    ensures Tied(After(t, Raise(p) + [WakeOn(8)]), p)
  {
    hide After, Next, Slice;
    RaisedOf(t, p);
    var u := After(t, Raise(p));
    LastStep(t, Raise(p), WakeOn(8));
    NextOk(u, WakeOn(8));
    Wakes(u, 0, 8);
  }

  /** For every slot but the first the tie is reached from boot, and then the process in it can be
      overtaken any number of times. */
  lemma Unbounded(p: nat, n: nat)
    requires 0 < p < NPROC
    ensures TableOk(Booted())
    ensures var t := After(Booted(), Setup(p));
            && Waiting(t.proc, p, t.ticks) && NoResets(Naps(n), t.proc[p].pid)
            && Rounds(t, Naps(n)) == n && p !in Order(t, Naps(n))
  {
    hide After, Next, TableOk, Order, Rounds, Parked, Waiting;
    FillParks(p);
    TieLast(After(Booted(), Fill(p)), p);
    Join(Booted(), Fill(p), Raise(p) + [WakeOn(8)]);
    SameTick(After(Booted(), Setup(p)), p, n);
  }

  /** Whatever happens, p is dispatched within NPROC rounds. */
  ghost predicate Soon(t: Tab, p: nat)
    requires TableOk(t) && p < NPROC
  {
    forall ops :: NoResets(ops, t.proc[p].pid) && Rounds(t, ops) >= NPROC ==> p in Order(t, ops)
  }

  /** Slot p has been runnable at the highest priority for d ticks. */
  ghost predicate WaitingFor(t: Tab, p: nat, d: nat) { TableOk(t) && t.ticks >= d && Waiting(t.proc, p, t.ticks - d) }

  /** Exactly who is sure to run within NPROC rounds; the tables that refute it for the others are
      reached from boot. */
  lemma SoonIff(p: nat, d: nat)
    requires p < NPROC
    ensures (forall t :: WaitingFor(t, p, d) ==> Soon(t, p)) <==> p == 0 || d > 0
  {
    hide TableOk, Order, Rounds, After;
    if p == 0 || d > 0 {
      forall t, ops | WaitingFor(t, p, d) && NoResets(ops, t.proc[p].pid) && Rounds(t, ops) >= NPROC
        ensures p in Order(t, ops)
      {
        BoundedOvertaking(t, ops, p, t.ticks - d);
      }
    } else {
      Unbounded(p, NPROC);
      var t := After(Booted(), Setup(p));
      assert WaitingFor(t, p, d);
      assert !Soon(t, p);
    }
  }
}
