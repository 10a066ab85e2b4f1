/** fork, exit, wait, sleep, wakeup and kill of kernel/proc.c as interleaved steps.

    A slot holds the fields of struct proc, the holder of its lock, and how far its process has
    got in the kernel.  A step is what a process does between two points where another process
    can get in between: acquiring or releasing wait_lock or a p->lock, and each round of the
    loops in reparent(), wakeup() and kwait() while they hold wait_lock. */
module Procs {
  import opened Params

  const INIT: nat := 0

  /** RUNNABLE and RUNNING are both Ready: who has a hart does not matter here. */
  datatype State = Unused | Used | Sleeping | Ready | Zombie

  datatype PC =
    | Gone                          // no thread: not started yet, or switched away for good
    | User                          // not in fork, exit or wait
    | Elsewhere                     // in sleep() on another channel
    | ForkHeld(np: nat)             // allocproc() returned np, its lock is held
    | ForkFree(np: nat)             // before acquire(&wait_lock)
    | ForkStart(np: nat)            // parent set, before np becomes runnable
    | ExitScan(i: nat)              // in reparent() at slot i
    | ExitWakeInit(i: nat, j: nat)  // in its wakeup(initproc) at slot j
    | ExitWakeParent(j: nat)        // in wakeup(p->parent) at slot j
    | ExitDie                       // before acquire(&p->lock)
    | ExitZombie                    // zombie, before release(&wait_lock)
    | ExitSwitch                    // before the switch that lets go of p->lock
    | WaitScan(i: nat, kids: bool)  // in kwait()'s scan at slot i
    | WaitCheck(i: nat, kids: bool) // with the lock of child i
    | WaitTurnIn                    // killed(p) was false, before acquire(&p->lock) in sleep()
    | WaitDone(r: int)              // before the last release(&wait_lock) of kwait(), r is what it returns
    | WaitSleep1                    // in sleep(p, &wait_lock), p->lock acquired
    | WaitSleep2                    // wait_lock released
    | WaitAsleep                    // switched away
    | WaitAgain                     // before acquire(&wait_lock) in sleep()

  datatype Slot = Slot(
    state: State, parent: int, pid: nat, xstate: int, killed: bool, chan: int,
    lock: int, pc: PC, maker: int, arg: int)

  /** maker is the process whose fork is filling the slot, arg the argument of its exit; exited
      and reaped record what exit was called with and what wait returned, by pid. */
  datatype Sys = Sys(slot: seq<Slot>, waitLock: int, nextpid: nat, exited: map<nat, int>, reaped: map<nat, int>)

  predicate Alive(p: Slot) { p.state == Ready || p.state == Sleeping }

  predicate HoldsWait(pc: PC) {
    pc.ExitScan? || pc.ExitWakeInit? || pc.ExitWakeParent? || pc.ExitDie? || pc.ExitZombie? || pc.WaitScan?
      || pc.WaitCheck? || pc.WaitTurnIn? || pc.WaitDone? || pc.WaitSleep1?
  }

  /** The slot whose lock process o holds. */
  function Held(pc: PC, o: int): int {
    match pc
    case ForkHeld(np) => np
    case WaitCheck(i, _) => i
    case ExitZombie => o
    case ExitSwitch => o
    case WaitSleep1 => o
    case WaitSleep2 => o
    case _ => -1
  }

  function Makes(pc: PC): int {
    match pc
    case ForkHeld(np) => np
    case ForkFree(np) => np
    case ForkStart(np) => np
    case _ => -1
  }

  predicate Exiting(pc: PC) {
    pc.ExitScan? || pc.ExitWakeInit? || pc.ExitWakeParent? || pc.ExitDie? || pc.ExitZombie? || pc.ExitSwitch?
  }

  /** Asleep in kwait(), or certain to be as soon as it lets go of its lock. */
  predicate Sleepy(p: Slot) { p.pc.WaitSleep1? || p.pc.WaitSleep2? || (p.pc.WaitAsleep? && p.state == Sleeping) }

  predicate Sized(s: Sys) { |s.slot| == NPROC && -1 <= s.waitLock < NPROC }

  /** An exiting process has given a child to init and has not yet woken it. */
  predicate InitDue(s: Sys)
    requires Sized(s)
  {
    s.waitLock != -1 && s.slot[s.waitLock].pc.ExitWakeInit? && s.slot[s.waitLock].pc.j <= INIT
  }

  // ---------------------------------------------------------------- the invariant

  predicate PcFits(p: Slot) {
    match p.state
    case Unused => p.pc == Gone && p.parent == -1 && p.lock == -1
    case Used => p.pc == Gone
    case Sleeping => p.pc == Elsewhere || p.pc == WaitAsleep
    case Ready => p.pc != Gone && p.pc != ExitZombie && p.pc != ExitSwitch
    case Zombie => p.pc == Gone || p.pc == ExitZombie || p.pc == ExitSwitch
  }

  predicate BoundsOk(p: Slot) {
    && -1 <= p.parent < NPROC && -1 <= p.lock < NPROC && -1 <= p.maker < NPROC
    && (p.pc.ExitScan? ==> p.pc.i <= NPROC) && (p.pc.ExitWakeInit? ==> p.pc.i < NPROC && p.pc.j <= NPROC)
    && (p.pc.ExitWakeParent? ==> p.pc.j <= NPROC) && (p.pc.WaitScan? ==> p.pc.i <= NPROC)
    && (p.pc.WaitCheck? ==> p.pc.i < NPROC)
    && Makes(p.pc) < NPROC
  }

  /** What holds of slot x by itself. */
  predicate Local(p: Slot, x: nat, waitLock: int) {
    && PcFits(p) && BoundsOk(p) && (HoldsWait(p.pc) <==> waitLock == x)
    && (p.pc == WaitAsleep && p.state == Sleeping ==> p.chan == x) && (p.pc == Elsewhere ==> p.chan == NPROC)
    && (x == INIT ==> Alive(p) && !Exiting(p.pc) && p.parent == -1)
    && ((Alive(p) || p.state == Zombie) && x != INIT ==> p.parent != -1)
    && (p.state == Used ==> p.maker != -1)
  }

  /** Process id and exit status of a slot in use. */
  predicate Identity(p: Slot, nextpid: nat, exited: map<nat, int>, reaped: map<nat, int>) {
    && (p.state != Unused ==> p.pid < nextpid && p.pid !in reaped)
    && (p.state != Unused && p.pid in exited ==> Exiting(p.pc) || p.state == Zombie)
    && (Exiting(p.pc) ==> p.pid in exited && exited[p.pid] == p.arg)
    && (p.state == Zombie ==> p.pid in exited && exited[p.pid] == p.xstate)
  }

  /** Locks and forks: who holds the lock of y, and who is filling y. */
  predicate Holding(p: Slot, x: nat, q: Slot, y: nat) {
    && (Held(p.pc, x) == y <==> q.lock == x)
    && (Makes(p.pc) == y <==> q.state == Used && q.maker == x)
    && (Makes(p.pc) == y ==> q.parent == if p.pc.ForkStart? then x else -1)
  }

  /** Children: no child has a dead parent, and an exiting process leaves none behind. */
  predicate Family(p: Slot, x: nat, q: Slot, y: nat) {
    && (q.parent == x ==> Alive(p) && x != y && q.state != Unused)
    && (p.pc.ExitScan? && y < p.pc.i ==> q.parent != x)
    && (p.pc.ExitWakeInit? && y <= p.pc.i ==> q.parent != x)
    && (p.pc.ExitWakeParent? || p.pc.ExitDie? ==> q.parent != x)
    && (p.pc.WaitCheck? && y == p.pc.i ==> q.parent == x)
    && (p.state != Unused && q.state != Unused && x != y ==> p.pid != q.pid)
  }

  /** Nobody sleeps on a zombie child, unless it is init and about to be woken. */
  predicate Awake(p: Slot, x: nat, q: Slot, y: nat, due: bool) {
    && (Sleepy(p) && q.parent == x && q.state == Zombie ==> x == INIT && due)
    && ((p.pc.WaitScan? || p.pc.WaitCheck?) && y < p.pc.i && q.parent == x ==> q.state != Zombie)
    && (p.pc.WaitTurnIn? && q.parent == x ==> q.state != Zombie)
    && (p.pc.ExitWakeParent? && y == p.parent && y < p.pc.j ==> !Sleepy(q))
    && (p.pc.ExitDie? && y == p.parent ==> !Sleepy(q))
    && (p.pc.ExitWakeInit? && y == INIT && y < p.pc.j ==> !Sleepy(q))
  }

  predicate Pair(p: Slot, x: nat, q: Slot, y: nat, due: bool) {
    Holding(p, x, q, y) && Family(p, x, q, y) && Awake(p, x, q, y, due)
  }

  ghost predicate Records(s: Sys) {
    && (forall id :: id in s.exited ==> id < s.nextpid)
    && (forall id :: id in s.reaped ==> id in s.exited && s.reaped[id] == s.exited[id])
  }

  predicate Alone(s: Sys, x: nat)
    requires Sized(s) && x < NPROC
  {
    Local(s.slot[x], x, s.waitLock) && Identity(s.slot[x], s.nextpid, s.exited, s.reaped)
  }

  predicate Both(s: Sys, x: nat, y: nat)
    requires Sized(s) && x < NPROC && y < NPROC
  {
    Pair(s.slot[x], x, s.slot[y], y, InitDue(s))
  }

  ghost predicate Inv(s: Sys) {
    && Sized(s) && Records(s)
    && (forall x: nat :: x < NPROC ==> Alone(s, x))
    && (forall x: nat, y: nat :: x < NPROC && y < NPROC ==> Both(s, x, y))
  }

  // ---------------------------------------------------------------- proof plumbing

  lemma Use(s: Sys, x: nat, y: nat)
    requires Inv(s) && x < NPROC && y < NPROC
    ensures Sized(s) && Alone(s, x) && Alone(s, y) && Both(s, x, y) && Both(s, y, x) && Both(s, x, x) && Both(s, y, y)
  {
    hide Alone, Both, Records;
  }

  /** The step touches at most the slots a and b, and what it does to the rest of the state is
      no concern of the others. */
  ghost predicate Touches(s: Sys, t: Sys, a: nat, b: nat) {
    && Sized(s) && Sized(t) && a < NPROC && b < NPROC && Records(t)
    && (forall x: nat :: x < NPROC && x != a && x != b ==> t.slot[x] == s.slot[x])
    && (t.waitLock == s.waitLock || ((s.waitLock == -1 || s.waitLock == a) && (t.waitLock == -1 || t.waitLock == a)))
    && (InitDue(s) ==> InitDue(t) || !Sleepy(t.slot[INIT]))
    && s.nextpid <= t.nextpid
    && (t.exited == s.exited || t.exited == s.exited[s.slot[a].pid := t.slot[a].arg])
    && (t.reaped == s.reaped || t.reaped == s.reaped[s.slot[b].pid := s.slot[b].xstate])
    && (t.exited != s.exited ==> s.slot[a].state != Unused) && (t.reaped != s.reaped ==> s.slot[b].state != Unused)
  }

  lemma Others(s: Sys, t: Sys, a: nat, b: nat, x: nat)
    requires Inv(s) && Touches(s, t, a, b) && x < NPROC && x != a && x != b
    ensures Alone(t, x)
  {
    hide Inv;
    Use(s, x, a);
    Use(s, x, b);
  }

  lemma OtherPairs(s: Sys, t: Sys, a: nat, b: nat, x: nat, y: nat)
    requires Inv(s) && Touches(s, t, a, b) && x < NPROC && x != a && x != b && y < NPROC && y != a && y != b
    ensures Both(t, x, y)
  {
    hide Inv;
    Use(s, x, y);
  }

  /** It is enough to look at the slots touched. */
  lemma Touched(s: Sys, t: Sys, a: nat, b: nat)
    requires Inv(s) && Touches(s, t, a, b) && Alone(t, a) && Alone(t, b)
    requires forall y: nat :: y < NPROC ==> Both(t, a, y) && Both(t, y, a) && Both(t, b, y) && Both(t, y, b)
    ensures Inv(t)
  {
    hide Alone, Both, Records;
    forall x: nat | x < NPROC ensures Alone(t, x) {
      if x != a && x != b { Others(s, t, a, b, x); }
    }
    forall x: nat, y: nat | x < NPROC && y < NPROC ensures Both(t, x, y) {
      if x != a && x != b && y != a && y != b { OtherPairs(s, t, a, b, x, y); }
    }
  }

  /** What is known about two slots. */
  predicate Known(p: Slot, x: nat, q: Slot, y: nat, due: bool, w: int) {
    && Local(p, x, w) && Local(q, y, w)
    && Pair(p, x, q, y, due) && Pair(q, y, p, x, due) && Pair(p, x, p, x, due) && Pair(q, y, q, y, due)
  }

  predicate Linked(p: Slot, x: nat, q: Slot, y: nat, due: bool) { Pair(p, x, q, y, due) && Pair(q, y, p, x, due) }

  lemma KnownOf(s: Sys, x: nat, y: nat)
    requires Inv(s) && x < NPROC && y < NPROC
    ensures Sized(s) && Known(s.slot[x], x, s.slot[y], y, InitDue(s), s.waitLock)
    ensures Identity(s.slot[x], s.nextpid, s.exited, s.reaped) && Identity(s.slot[y], s.nextpid, s.exited, s.reaped)
    ensures Records(s)
  {
    Use(s, x, y);
  }

  lemma One(s: Sys, t: Sys, a: nat)
    requires Inv(s) && Touches(s, t, a, a) && Alone(t, a) && Linked(t.slot[a], a, t.slot[a], a, InitDue(t))
    requires forall y: nat :: y < NPROC && y != a ==> Linked(t.slot[a], a, s.slot[y], y, InitDue(t))
    ensures Inv(t)
  {
    hide Inv, Alone, Pair;
    forall y: nat | y < NPROC ensures Both(t, a, y) && Both(t, y, a) {
      assert y != a ==> t.slot[y] == s.slot[y];
    }
    Touched(s, t, a, a);
  }

  lemma Two(s: Sys, t: Sys, a: nat, b: nat)
    requires Inv(s) && a != b && Touches(s, t, a, b) && Alone(t, a) && Alone(t, b)
    requires Linked(t.slot[a], a, t.slot[b], b, InitDue(t))
    requires Pair(t.slot[a], a, t.slot[a], a, InitDue(t)) && Pair(t.slot[b], b, t.slot[b], b, InitDue(t))
    requires forall y: nat :: y < NPROC && y != a && y != b ==>
               Linked(t.slot[a], a, s.slot[y], y, InitDue(t)) && Linked(t.slot[b], b, s.slot[y], y, InitDue(t))
    ensures Inv(t)
  {
    hide Inv, Alone, Pair;
    forall y: nat | y < NPROC ensures Both(t, a, y) && Both(t, y, a) && Both(t, b, y) && Both(t, y, b) {
      assert y != a && y != b ==> t.slot[y] == s.slot[y];
    }
    Touched(s, t, a, b);
  }

  // ---------------------------------------------------------------- steps that change one slot

  /** What a process may do next, where its code leaves a choice. */
  datatype Choice = Exit(status: int) | Wait | Nap | Fork(np: nat) | Fail | Proceed

  /** The new slot and the new holder of wait_lock, for a step that touches no other slot. */
  function Solo(p: Slot, a: nat, c: Choice, w: int): (Slot, int) {
    match p.pc
    case User =>
      if c.Exit? && a != INIT && w == -1 then (p.(pc := ExitScan(0), arg := c.status), a)
      else if c.Wait? && w == -1 then (p.(pc := WaitScan(0, false)), a)
      else if c.Nap? && p.lock == -1 then (p.(pc := Elsewhere, state := Sleeping, chan := NPROC), w)
      else (p, w)
    case Elsewhere => if p.state == Ready && p.lock == -1 then (p.(pc := User, chan := -1), w) else (p, w)
    case ExitScan(i) =>
      if i == NPROC then (p.(pc := ExitWakeParent(0)), w) else if i == a then (p.(pc := ExitScan(i + 1)), w) else (p, w)
    case ExitWakeInit(i, j) =>
      if j == NPROC then (p.(pc := ExitScan(i + 1)), w)
      else if j == a then (p.(pc := ExitWakeInit(i, j + 1)), w)
      else (p, w)
    case ExitWakeParent(j) =>
      if j == NPROC then (p.(pc := ExitDie), w) else if j == a then (p.(pc := ExitWakeParent(j + 1)), w) else (p, w)
    case ExitDie =>
      if p.lock == -1 then (p.(pc := ExitZombie, lock := a, state := Zombie, xstate := p.arg), w) else (p, w)
    case ExitZombie => (p.(pc := ExitSwitch), -1)
    case ExitSwitch => (p.(pc := Gone, lock := -1), w)
    case WaitScan(i, kids) =>
      if i == NPROC && p.lock == -1 then
        (p.(pc := if !kids || p.killed then WaitDone(-1) else WaitTurnIn), w)
      else if i == a then (p.(pc := WaitScan(i + 1, kids)), w)
      else (p, w)
    case WaitTurnIn => if p.lock == -1 then (p.(pc := WaitSleep1, lock := a), w) else (p, w)
    case WaitDone(_) => (p.(pc := User), -1)
    case WaitSleep1 => (p.(pc := WaitSleep2), -1)
    case WaitSleep2 => (p.(pc := WaitAsleep, state := Sleeping, chan := a, lock := -1), w)
    case WaitAsleep => if p.state == Ready && p.lock == -1 then (p.(pc := WaitAgain, chan := -1), w) else (p, w)
    case WaitAgain => if w == -1 then (p.(pc := WaitScan(0, false)), a) else (p, w)
    case _ => (p, w)
  }

  /** The state after it; an exit is recorded when it is called. */
  function SoloStep(s: Sys, a: nat, c: Choice): Sys
    requires Sized(s) && a < NPROC
  {
    var p := s.slot[a];
    var (p1, w) := Solo(p, a, c, s.waitLock);
    s.(slot := s.slot[a := p1], waitLock := w,
       exited := if p.pc == User && c.Exit? && p1.pc.ExitScan? then s.exited[p.pid := c.status] else s.exited)
  }

  predicate SoloCase(p: Slot, a: nat, q: Slot, y: nat, due: bool, w: int) {
    && Known(p, a, q, y, due, w) && a < NPROC && y < NPROC && y != a && (w == -1 ==> !due)
    && (p.pc.ExitWakeInit? ==> due == (p.pc.j <= INIT)) && (HoldsWait(p.pc) && !p.pc.ExitWakeInit? ==> !due)
  }

  /** Whether init is due after the step. */
  predicate DueAfter(p: Slot, a: nat, c: Choice, due: bool, w: int) {
    var p1 := Solo(p, a, c, w).0;
    if p1.pc.ExitWakeInit? then p1.pc.j <= INIT else if HoldsWait(p.pc) || HoldsWait(p1.pc) then false else due
  }

  lemma SoloUser(p: Slot, a: nat, c: Choice, q: Slot, y: nat, due: bool, w: int)
    requires SoloCase(p, a, q, y, due, w) && p.pc.User?
    ensures Linked(Solo(p, a, c, w).0, a, q, y, DueAfter(p, a, c, due, w))
  {
    hide BoundsOk;
  }

  lemma SoloWake(p: Slot, a: nat, c: Choice, q: Slot, y: nat, due: bool, w: int)
    requires SoloCase(p, a, q, y, due, w) && (p.pc.Elsewhere? || p.pc.WaitAsleep? || p.pc.WaitAgain?)
    ensures Linked(Solo(p, a, c, w).0, a, q, y, DueAfter(p, a, c, due, w))
  {
    hide BoundsOk;
  }

  lemma SoloExit(p: Slot, a: nat, c: Choice, q: Slot, y: nat, due: bool, w: int)
    requires SoloCase(p, a, q, y, due, w) && Exiting(p.pc)
    ensures Linked(Solo(p, a, c, w).0, a, q, y, DueAfter(p, a, c, due, w))
  {
    hide BoundsOk;
  }

  lemma SoloWait(p: Slot, a: nat, c: Choice, q: Slot, y: nat, due: bool, w: int)
    requires SoloCase(p, a, q, y, due, w)
    requires (p.pc.WaitScan? || p.pc.WaitTurnIn? || p.pc.WaitDone? || p.pc.WaitSleep1? || p.pc.WaitSleep2?)
    ensures Linked(Solo(p, a, c, w).0, a, q, y, DueAfter(p, a, c, due, w))
  {
    hide BoundsOk;
  }

  lemma SoloPairs(p: Slot, a: nat, c: Choice, q: Slot, y: nat, due: bool, w: int)
    requires SoloCase(p, a, q, y, due, w)
    ensures Linked(Solo(p, a, c, w).0, a, q, y, DueAfter(p, a, c, due, w))
  {
    hide Linked, DueAfter, Known;
    if p.pc.User? { SoloUser(p, a, c, q, y, due, w); }
    else if p.pc.Elsewhere? || p.pc.WaitAsleep? || p.pc.WaitAgain? { SoloWake(p, a, c, q, y, due, w); }
    else if Exiting(p.pc) { SoloExit(p, a, c, q, y, due, w); }
    else if p.pc.WaitScan? || p.pc.WaitTurnIn? || p.pc.WaitDone? || p.pc.WaitSleep1? || p.pc.WaitSleep2? {
      SoloWait(p, a, c, q, y, due, w);
    }
    else { SoloNone(p, a, c, q, y, due, w); }
  }

  lemma SoloNone(p: Slot, a: nat, c: Choice, q: Slot, y: nat, due: bool, w: int)
    requires SoloCase(p, a, q, y, due, w) && (p.pc.Gone? || Makes(p.pc) != -1 || p.pc.WaitCheck?)
    ensures Linked(Solo(p, a, c, w).0, a, q, y, DueAfter(p, a, c, due, w))
  {
  }

  lemma SoloLocalExit(p: Slot, a: nat, c: Choice, w: int)
    requires a < NPROC && Local(p, a, w) && Exiting(p.pc)
    ensures Local(Solo(p, a, c, w).0, a, Solo(p, a, c, w).1)
    ensures Solo(p, a, c, w).1 == w || ((w == -1 || w == a) && (Solo(p, a, c, w).1 == -1 || Solo(p, a, c, w).1 == a))
  {
  }

  lemma SoloSelfExit(p: Slot, a: nat, c: Choice, due: bool, w: int)
    requires a < NPROC && Local(p, a, w) && Pair(p, a, p, a, due) && Exiting(p.pc)
    ensures Linked(Solo(p, a, c, w).0, a, Solo(p, a, c, w).0, a, DueAfter(p, a, c, due, w))
  {
  }

  lemma SoloSelfWait(p: Slot, a: nat, c: Choice, due: bool, w: int)
    requires a < NPROC && Local(p, a, w) && Pair(p, a, p, a, due)
    requires p.pc.WaitScan? || p.pc.WaitTurnIn? || p.pc.WaitDone? || p.pc.WaitSleep1? || p.pc.WaitSleep2?
             || p.pc.WaitCheck?
    ensures Linked(Solo(p, a, c, w).0, a, Solo(p, a, c, w).0, a, DueAfter(p, a, c, due, w))
    ensures Local(Solo(p, a, c, w).0, a, Solo(p, a, c, w).1)
    ensures Solo(p, a, c, w).1 == w || ((w == -1 || w == a) && (Solo(p, a, c, w).1 == -1 || Solo(p, a, c, w).1 == a))
  {
  }

  lemma SoloLocalWake(p: Slot, a: nat, c: Choice, w: int)
    requires a < NPROC && Local(p, a, w)
    requires (p.pc.User? || p.pc.Elsewhere? || p.pc.WaitAsleep? || p.pc.WaitAgain?)
    ensures Local(Solo(p, a, c, w).0, a, Solo(p, a, c, w).1)
    ensures Solo(p, a, c, w).1 == w || ((w == -1 || w == a) && (Solo(p, a, c, w).1 == -1 || Solo(p, a, c, w).1 == a))
  {
  }

  lemma SoloSelfWake(p: Slot, a: nat, c: Choice, due: bool, w: int)
    requires a < NPROC && Local(p, a, w) && Pair(p, a, p, a, due)
    requires (p.pc.User? || p.pc.Elsewhere? || p.pc.WaitAsleep? || p.pc.WaitAgain?)
    ensures Linked(Solo(p, a, c, w).0, a, Solo(p, a, c, w).0, a, DueAfter(p, a, c, due, w))
  {
  }

  lemma SoloSelfNone(p: Slot, a: nat, c: Choice, due: bool, w: int)
    requires a < NPROC && Local(p, a, w) && Pair(p, a, p, a, due) && (p.pc.Gone? || Makes(p.pc) != -1)
    ensures Linked(Solo(p, a, c, w).0, a, Solo(p, a, c, w).0, a, DueAfter(p, a, c, due, w))
    ensures Local(Solo(p, a, c, w).0, a, Solo(p, a, c, w).1)
    ensures Solo(p, a, c, w).1 == w || ((w == -1 || w == a) && (Solo(p, a, c, w).1 == -1 || Solo(p, a, c, w).1 == a))
  {
  }

  lemma SoloSelf(p: Slot, a: nat, c: Choice, due: bool, w: int)
    requires a < NPROC && Local(p, a, w) && Pair(p, a, p, a, due)
    ensures Linked(Solo(p, a, c, w).0, a, Solo(p, a, c, w).0, a, DueAfter(p, a, c, due, w))
    ensures Local(Solo(p, a, c, w).0, a, Solo(p, a, c, w).1)
    ensures Solo(p, a, c, w).1 == w || ((w == -1 || w == a) && (Solo(p, a, c, w).1 == -1 || Solo(p, a, c, w).1 == a))
  {
    hide Linked, DueAfter, Solo, Local, Pair;
    if Exiting(p.pc) {
      SoloSelfExit(p, a, c, due, w);
      SoloLocalExit(p, a, c, w);
    }
    else if p.pc.WaitScan? || p.pc.WaitTurnIn? || p.pc.WaitDone? || p.pc.WaitSleep1? || p.pc.WaitSleep2?
            || p.pc.WaitCheck? {
      SoloSelfWait(p, a, c, due, w);
    }
    else if p.pc.User? || p.pc.Elsewhere? || p.pc.WaitAsleep? || p.pc.WaitAgain? {
      SoloSelfWake(p, a, c, due, w);
      SoloLocalWake(p, a, c, w);
    }
    else { SoloSelfNone(p, a, c, due, w); }
  }

  lemma SoloIdentity(s: Sys, a: nat, c: Choice)
    requires Sized(s) && a < NPROC && Local(s.slot[a], a, s.waitLock)
    requires Identity(s.slot[a], s.nextpid, s.exited, s.reaped) && Records(s)
    ensures var t := SoloStep(s, a, c);
            && Identity(t.slot[a], t.nextpid, t.exited, t.reaped) && Records(t)
            && (t.exited == s.exited || t.exited == s.exited[s.slot[a].pid := t.slot[a].arg])
  {
  }

  lemma SoloDue(s: Sys, a: nat, c: Choice)
    requires Sized(s) && a < NPROC && Local(s.slot[a], a, s.waitLock)
    ensures var t := SoloStep(s, a, c);
            && Sized(t) && InitDue(t) == DueAfter(s.slot[a], a, c, InitDue(s), s.waitLock)
            && (InitDue(s) ==> InitDue(t))
  {
  }

  lemma SoloInv(s: Sys, a: nat, c: Choice)
    requires Inv(s) && a < NPROC
    ensures Sized(s) && Inv(SoloStep(s, a, c))
  {
    hide Inv, Pair, Local, Identity, Records, Solo, DueAfter;
    KnownOf(s, a, a);
    var t := SoloStep(s, a, c);
    var p := s.slot[a];
    SoloDue(s, a, c);
    SoloIdentity(s, a, c);
    SoloSelf(p, a, c, InitDue(s), s.waitLock);
    forall y: nat | y < NPROC && y != a ensures Linked(t.slot[a], a, s.slot[y], y, InitDue(t)) {
      KnownOf(s, a, y);
      HolderDue(s, a);
      SoloPairs(p, a, c, s.slot[y], y, InitDue(s), s.waitLock);
    }
    UnusedStays(p, a, c, s.waitLock);
    One(s, t, a);
  }

  lemma HolderDue(s: Sys, a: nat)
    requires Sized(s) && a < NPROC && Local(s.slot[a], a, s.waitLock)
    ensures var p := s.slot[a];
            && (p.pc.ExitWakeInit? ==> InitDue(s) == (p.pc.j <= INIT))
            && (HoldsWait(p.pc) && !p.pc.ExitWakeInit? ==> !InitDue(s))
            && (s.waitLock == -1 ==> !InitDue(s))
  {
  }

  lemma UnusedStays(p: Slot, a: nat, c: Choice, w: int)
    requires a < NPROC && Local(p, a, w)
    ensures p.state == Unused ==> Solo(p, a, c, w) == (p, w)
  {
  }

  // ---------------------------------------------------------------- steps that change two slots

  /** wakeup(chan) at one slot. */
  function Wake(q: Slot, chan: int): Slot { if q.state == Sleeping && q.chan == chan then q.(state := Ready) else q }

  /** freeproc(). */
  function Freed(): Slot { Slot(Unused, -1, 0, 0, false, -1, -1, Gone, -1, 0) }

  /** The other slot the next step of process a looks at, if any. */
  function Target(p: Slot, c: Choice): int {
    match p.pc
    case User => if c.Fork? then c.np else -1
    case ForkHeld(np) => np
    case ForkFree(np) => np
    case ForkStart(np) => np
    case ExitScan(i) => i
    case ExitWakeInit(i, j) => j
    case ExitWakeParent(j) => j
    case WaitScan(i, _) => i
    case WaitCheck(i, _) => i
    case _ => -1
  }

  /** Both new slots and the new holder of wait_lock, for a step of a that looks at slot b. */
  function Duo(p: Slot, a: nat, q: Slot, b: nat, c: Choice, w: int, id: nat): (Slot, Slot, int) {
    match p.pc
    case User =>
      if c.Fork? && q.state == Unused
      then (p.(pc := ForkHeld(b)), q.(state := Used, pid := id, lock := a, maker := a), w)
      else (p, q, w)
    case ForkHeld(_) => if c.Fail? then (p.(pc := User), Freed(), w) else (p.(pc := ForkFree(b)), q.(lock := -1), w)
    case ForkFree(_) => if w == -1 then (p.(pc := ForkStart(b)), q.(parent := a), w) else (p, q, w)
    case ForkStart(_) => if q.lock == -1 then (p.(pc := User), q.(state := Ready, pc := User), w) else (p, q, w)
    case ExitScan(i) =>
      if q.parent == a then (p.(pc := ExitWakeInit(i, 0)), q.(parent := INIT), w)
      else (p.(pc := ExitScan(i + 1)), q, w)
    case ExitWakeInit(i, j) => if q.lock == -1 then (p.(pc := ExitWakeInit(i, j + 1)), Wake(q, INIT), w) else (p, q, w)
    case ExitWakeParent(j) =>
      if q.lock == -1 then (p.(pc := ExitWakeParent(j + 1)), Wake(q, p.parent), w) else (p, q, w)
    case WaitScan(i, kids) =>
      if q.parent != a then (p.(pc := WaitScan(i + 1, kids)), q, w)
      else if q.lock == -1 then (p.(pc := WaitCheck(i, kids)), q.(lock := a), w)
      else (p, q, w)
    case WaitCheck(i, kids) =>
      if q.state != Zombie then (p.(pc := WaitScan(i + 1, true)), q.(lock := -1), w)
      else if c.Fail? then (p.(pc := WaitDone(-1)), q.(lock := -1), w) // copyout() fails
      else (p.(pc := WaitDone(q.pid)), Freed(), w)
    case _ => (p, q, w)
  }

  predicate DueAfter2(p: Slot, p1: Slot, due: bool) {
    if p1.pc.ExitWakeInit? then p1.pc.j <= INIT else if HoldsWait(p.pc) || HoldsWait(p1.pc) then false else due
  }

  /** Three different slots, and whether init is due. */
  predicate DuoCase(p: Slot, a: nat, q: Slot, b: nat, r: Slot, y: nat, c: Choice, due: bool, w: int, id: nat) {
    && a < NPROC && b < NPROC && y < NPROC && a != b && y != a && y != b && Target(p, c) == b
    && Known(p, a, q, b, due, w) && Known(p, a, r, y, due, w) && Known(q, b, r, y, due, w)
    && (p.pc.ExitWakeInit? ==> due == (p.pc.j <= INIT)) && (HoldsWait(p.pc) && !p.pc.ExitWakeInit? ==> !due)
    && (p.state != Unused ==> p.pid < id) && (q.state != Unused ==> q.pid < id) && (r.state != Unused ==> r.pid < id)
  }

  predicate ActorLinked(p: Slot, a: nat, q: Slot, b: nat, r: Slot, y: nat, c: Choice, due: bool, w: int, id: nat) {
    var d := Duo(p, a, q, b, c, w, id);
    Linked(d.0, a, r, y, DueAfter2(p, d.0, due))
  }

  predicate TargetLinked(p: Slot, a: nat, q: Slot, b: nat, r: Slot, y: nat, c: Choice, due: bool, w: int, id: nat) {
    var d := Duo(p, a, q, b, c, w, id);
    Linked(d.1, b, r, y, DueAfter2(p, d.0, due))
  }

  lemma DuoForkActor(p: Slot, a: nat, q: Slot, b: nat, r: Slot, y: nat, c: Choice, due: bool, w: int, id: nat)
    requires DuoCase(p, a, q, b, r, y, c, due, w, id) && p.pc.User?
    ensures ActorLinked(p, a, q, b, r, y, c, due, w, id)
  {
    hide BoundsOk, Exiting;
  }

  lemma DuoForkTarget(p: Slot, a: nat, q: Slot, b: nat, r: Slot, y: nat, c: Choice, due: bool, w: int, id: nat)
    requires DuoCase(p, a, q, b, r, y, c, due, w, id) && p.pc.User?
    ensures TargetLinked(p, a, q, b, r, y, c, due, w, id)
  {
    hide BoundsOk, Exiting;
  }

  lemma DuoHeldActor(p: Slot, a: nat, q: Slot, b: nat, r: Slot, y: nat, c: Choice, due: bool, w: int, id: nat)
    requires DuoCase(p, a, q, b, r, y, c, due, w, id) && p.pc.ForkHeld?
    ensures ActorLinked(p, a, q, b, r, y, c, due, w, id)
  {
    hide BoundsOk, Exiting;
  }

  lemma DuoHeldTarget(p: Slot, a: nat, q: Slot, b: nat, r: Slot, y: nat, c: Choice, due: bool, w: int, id: nat)
    requires DuoCase(p, a, q, b, r, y, c, due, w, id) && p.pc.ForkHeld?
    ensures TargetLinked(p, a, q, b, r, y, c, due, w, id)
  {
    hide BoundsOk, Exiting;
  }

  lemma DuoFree(p: Slot, a: nat, q: Slot, b: nat, r: Slot, y: nat, c: Choice, due: bool, w: int, id: nat)
    requires DuoCase(p, a, q, b, r, y, c, due, w, id) && p.pc.ForkFree?
    ensures ActorLinked(p, a, q, b, r, y, c, due, w, id) && TargetLinked(p, a, q, b, r, y, c, due, w, id)
  {
    hide BoundsOk;
  }

  lemma DuoStart(p: Slot, a: nat, q: Slot, b: nat, r: Slot, y: nat, c: Choice, due: bool, w: int, id: nat)
    requires DuoCase(p, a, q, b, r, y, c, due, w, id) && p.pc.ForkStart?
    ensures ActorLinked(p, a, q, b, r, y, c, due, w, id) && TargetLinked(p, a, q, b, r, y, c, due, w, id)
  {
    hide BoundsOk;
  }

  lemma DuoReparentActor(p: Slot, a: nat, q: Slot, b: nat, r: Slot, y: nat, c: Choice, due: bool, w: int, id: nat)
    requires DuoCase(p, a, q, b, r, y, c, due, w, id) && p.pc.ExitScan?
    ensures ActorLinked(p, a, q, b, r, y, c, due, w, id)
  {
    hide BoundsOk, Exiting;
  }

  lemma DuoReparentTarget(p: Slot, a: nat, q: Slot, b: nat, r: Slot, y: nat, c: Choice, due: bool, w: int, id: nat)
    requires DuoCase(p, a, q, b, r, y, c, due, w, id) && p.pc.ExitScan?
    ensures TargetLinked(p, a, q, b, r, y, c, due, w, id)
  {
    hide BoundsOk, Exiting;
  }

  lemma DuoWakeInit(p: Slot, a: nat, q: Slot, b: nat, r: Slot, y: nat, c: Choice, due: bool, w: int, id: nat)
    requires DuoCase(p, a, q, b, r, y, c, due, w, id) && p.pc.ExitWakeInit?
    ensures ActorLinked(p, a, q, b, r, y, c, due, w, id) && TargetLinked(p, a, q, b, r, y, c, due, w, id)
  {
    hide BoundsOk;
  }

  lemma DuoWakeParent(p: Slot, a: nat, q: Slot, b: nat, r: Slot, y: nat, c: Choice, due: bool, w: int, id: nat)
    requires DuoCase(p, a, q, b, r, y, c, due, w, id) && p.pc.ExitWakeParent?
    ensures ActorLinked(p, a, q, b, r, y, c, due, w, id) && TargetLinked(p, a, q, b, r, y, c, due, w, id)
  {
    hide BoundsOk;
  }

  lemma DuoLookActor(p: Slot, a: nat, q: Slot, b: nat, r: Slot, y: nat, c: Choice, due: bool, w: int, id: nat)
    requires DuoCase(p, a, q, b, r, y, c, due, w, id) && p.pc.WaitScan?
    ensures ActorLinked(p, a, q, b, r, y, c, due, w, id)
  {
    hide BoundsOk;
  }

  lemma DuoLookTarget(p: Slot, a: nat, q: Slot, b: nat, r: Slot, y: nat, c: Choice, due: bool, w: int, id: nat)
    requires DuoCase(p, a, q, b, r, y, c, due, w, id) && p.pc.WaitScan?
    ensures TargetLinked(p, a, q, b, r, y, c, due, w, id)
  {
    hide BoundsOk;
  }

  lemma DuoCheckActor(p: Slot, a: nat, q: Slot, b: nat, r: Slot, y: nat, c: Choice, due: bool, w: int, id: nat)
    requires DuoCase(p, a, q, b, r, y, c, due, w, id) && p.pc.WaitCheck?
    ensures ActorLinked(p, a, q, b, r, y, c, due, w, id)
  {
    hide BoundsOk;
  }

  lemma DuoCheckTarget(p: Slot, a: nat, q: Slot, b: nat, r: Slot, y: nat, c: Choice, due: bool, w: int, id: nat)
    requires DuoCase(p, a, q, b, r, y, c, due, w, id) && p.pc.WaitCheck?
    ensures TargetLinked(p, a, q, b, r, y, c, due, w, id)
  {
    hide BoundsOk;
  }

  lemma DuoPairs(p: Slot, a: nat, q: Slot, b: nat, r: Slot, y: nat, c: Choice, due: bool, w: int, id: nat)
    requires DuoCase(p, a, q, b, r, y, c, due, w, id)
    ensures ActorLinked(p, a, q, b, r, y, c, due, w, id) && TargetLinked(p, a, q, b, r, y, c, due, w, id)
  {
    hide DuoCase, ActorLinked, TargetLinked;
    TargetKinds(p, a, q, b, r, y, c, due, w, id);
    if p.pc.User? { DuoForkActor(p, a, q, b, r, y, c, due, w, id); DuoForkTarget(p, a, q, b, r, y, c, due, w, id); }
    else if p.pc.ForkHeld? {
      DuoHeldActor(p, a, q, b, r, y, c, due, w, id);
      DuoHeldTarget(p, a, q, b, r, y, c, due, w, id);
    }
    else if p.pc.ForkFree? { DuoFree(p, a, q, b, r, y, c, due, w, id); }
    else if p.pc.ForkStart? { DuoStart(p, a, q, b, r, y, c, due, w, id); }
    else if p.pc.ExitScan? {
      DuoReparentActor(p, a, q, b, r, y, c, due, w, id);
      DuoReparentTarget(p, a, q, b, r, y, c, due, w, id);
    }
    else if p.pc.ExitWakeInit? { DuoWakeInit(p, a, q, b, r, y, c, due, w, id); }
    else if p.pc.ExitWakeParent? { DuoWakeParent(p, a, q, b, r, y, c, due, w, id); }
    else if p.pc.WaitScan? {
      DuoLookActor(p, a, q, b, r, y, c, due, w, id);
      DuoLookTarget(p, a, q, b, r, y, c, due, w, id);
    }
    else { DuoCheckActor(p, a, q, b, r, y, c, due, w, id); DuoCheckTarget(p, a, q, b, r, y, c, due, w, id); }
  }

  lemma TargetKinds(p: Slot, a: nat, q: Slot, b: nat, r: Slot, y: nat, c: Choice, due: bool, w: int, id: nat)
    requires DuoCase(p, a, q, b, r, y, c, due, w, id)
    ensures p.pc.User? || Makes(p.pc) != -1 || p.pc.ExitScan? || p.pc.ExitWakeInit? || p.pc.ExitWakeParent?
            || p.pc.WaitScan? || p.pc.WaitCheck?
  {
  }

  /** The two slots by themselves. */
  predicate Meet(p: Slot, a: nat, q: Slot, b: nat, c: Choice, due: bool, w: int, id: nat) {
    && a < NPROC && b < NPROC && a != b && Target(p, c) == b && Known(p, a, q, b, due, w)
    && (p.pc.ExitWakeInit? ==> due == (p.pc.j <= INIT)) && (HoldsWait(p.pc) && !p.pc.ExitWakeInit? ==> !due)
    && (p.state != Unused ==> p.pid < id) && (q.state != Unused ==> q.pid < id)
  }

  predicate Met(p: Slot, a: nat, q: Slot, b: nat, c: Choice, due: bool, w: int, id: nat) {
    var d := Duo(p, a, q, b, c, w, id);
    var due1 := DueAfter2(p, d.0, due);
    && Linked(d.0, a, d.1, b, due1) && Pair(d.0, a, d.0, a, due1) && Pair(d.1, b, d.1, b, due1)
  }

  predicate Fit(p: Slot, a: nat, q: Slot, b: nat, c: Choice, due: bool, w: int, id: nat) {
    var d := Duo(p, a, q, b, c, w, id);
    && Local(d.0, a, d.2) && Local(d.1, b, d.2) && (d.2 == w || (w == a && d.2 == -1))
  }

  lemma MeetFork(p: Slot, a: nat, q: Slot, b: nat, c: Choice, due: bool, w: int, id: nat)
    requires Meet(p, a, q, b, c, due, w, id) && p.pc.User?
    ensures Met(p, a, q, b, c, due, w, id)
  {
    hide BoundsOk;
  }

  lemma FitFork(p: Slot, a: nat, q: Slot, b: nat, c: Choice, due: bool, w: int, id: nat)
    requires Meet(p, a, q, b, c, due, w, id) && p.pc.User?
    ensures Fit(p, a, q, b, c, due, w, id)
  {
  }

  lemma MeetHeld(p: Slot, a: nat, q: Slot, b: nat, c: Choice, due: bool, w: int, id: nat)
    requires Meet(p, a, q, b, c, due, w, id) && p.pc.ForkHeld?
    ensures Met(p, a, q, b, c, due, w, id)
  {
    hide BoundsOk;
  }

  lemma FitHeld(p: Slot, a: nat, q: Slot, b: nat, c: Choice, due: bool, w: int, id: nat)
    requires Meet(p, a, q, b, c, due, w, id) && p.pc.ForkHeld?
    ensures Fit(p, a, q, b, c, due, w, id)
  {
  }

  lemma MeetFree(p: Slot, a: nat, q: Slot, b: nat, c: Choice, due: bool, w: int, id: nat)
    requires Meet(p, a, q, b, c, due, w, id) && p.pc.ForkFree?
    ensures Met(p, a, q, b, c, due, w, id)
  {
    hide BoundsOk;
  }

  lemma FitFree(p: Slot, a: nat, q: Slot, b: nat, c: Choice, due: bool, w: int, id: nat)
    requires Meet(p, a, q, b, c, due, w, id) && p.pc.ForkFree?
    ensures Fit(p, a, q, b, c, due, w, id)
  {
  }

  lemma MeetStart(p: Slot, a: nat, q: Slot, b: nat, c: Choice, due: bool, w: int, id: nat)
    requires Meet(p, a, q, b, c, due, w, id) && p.pc.ForkStart?
    ensures Met(p, a, q, b, c, due, w, id)
  {
    hide BoundsOk;
  }

  lemma FitStart(p: Slot, a: nat, q: Slot, b: nat, c: Choice, due: bool, w: int, id: nat)
    requires Meet(p, a, q, b, c, due, w, id) && p.pc.ForkStart?
    ensures Fit(p, a, q, b, c, due, w, id)
  {
  }

  lemma MeetReparent(p: Slot, a: nat, q: Slot, b: nat, c: Choice, due: bool, w: int, id: nat)
    requires Meet(p, a, q, b, c, due, w, id) && p.pc.ExitScan?
    ensures Met(p, a, q, b, c, due, w, id)
  {
    hide BoundsOk;
  }

  lemma FitReparent(p: Slot, a: nat, q: Slot, b: nat, c: Choice, due: bool, w: int, id: nat)
    requires Meet(p, a, q, b, c, due, w, id) && p.pc.ExitScan?
    ensures Fit(p, a, q, b, c, due, w, id)
  {
  }

  lemma MeetWakeInit(p: Slot, a: nat, q: Slot, b: nat, c: Choice, due: bool, w: int, id: nat)
    requires Meet(p, a, q, b, c, due, w, id) && p.pc.ExitWakeInit?
    ensures Met(p, a, q, b, c, due, w, id)
  {
    hide BoundsOk;
  }

  lemma FitWakeInit(p: Slot, a: nat, q: Slot, b: nat, c: Choice, due: bool, w: int, id: nat)
    requires Meet(p, a, q, b, c, due, w, id) && p.pc.ExitWakeInit?
    ensures Fit(p, a, q, b, c, due, w, id)
  {
  }

  lemma MeetWakeParent(p: Slot, a: nat, q: Slot, b: nat, c: Choice, due: bool, w: int, id: nat)
    requires Meet(p, a, q, b, c, due, w, id) && p.pc.ExitWakeParent?
    ensures Met(p, a, q, b, c, due, w, id)
  {
    hide BoundsOk;
  }

  lemma FitWakeParent(p: Slot, a: nat, q: Slot, b: nat, c: Choice, due: bool, w: int, id: nat)
    requires Meet(p, a, q, b, c, due, w, id) && p.pc.ExitWakeParent?
    ensures Fit(p, a, q, b, c, due, w, id)
  {
  }

  lemma MeetLook(p: Slot, a: nat, q: Slot, b: nat, c: Choice, due: bool, w: int, id: nat)
    requires Meet(p, a, q, b, c, due, w, id) && p.pc.WaitScan?
    ensures Met(p, a, q, b, c, due, w, id)
  {
    hide BoundsOk;
  }

  lemma FitLook(p: Slot, a: nat, q: Slot, b: nat, c: Choice, due: bool, w: int, id: nat)
    requires Meet(p, a, q, b, c, due, w, id) && p.pc.WaitScan?
    ensures Fit(p, a, q, b, c, due, w, id)
  {
  }

  lemma MeetCheck(p: Slot, a: nat, q: Slot, b: nat, c: Choice, due: bool, w: int, id: nat)
    requires Meet(p, a, q, b, c, due, w, id) && p.pc.WaitCheck?
    ensures Met(p, a, q, b, c, due, w, id)
  {
    hide BoundsOk;
  }

  lemma FitCheck(p: Slot, a: nat, q: Slot, b: nat, c: Choice, due: bool, w: int, id: nat)
    requires Meet(p, a, q, b, c, due, w, id) && p.pc.WaitCheck?
    ensures Fit(p, a, q, b, c, due, w, id)
  {
  }

  lemma DuoSelf(p: Slot, a: nat, q: Slot, b: nat, c: Choice, due: bool, w: int, id: nat)
    requires Meet(p, a, q, b, c, due, w, id)
    ensures Met(p, a, q, b, c, due, w, id) && Fit(p, a, q, b, c, due, w, id)
  {
    hide Meet, Met, Fit;
    MeetKinds(p, a, q, b, c, due, w, id);
    if p.pc.User? { MeetFork(p, a, q, b, c, due, w, id); FitFork(p, a, q, b, c, due, w, id); }
    else if p.pc.ForkHeld? { MeetHeld(p, a, q, b, c, due, w, id); FitHeld(p, a, q, b, c, due, w, id); }
    else if p.pc.ForkFree? { MeetFree(p, a, q, b, c, due, w, id); FitFree(p, a, q, b, c, due, w, id); }
    else if p.pc.ForkStart? { MeetStart(p, a, q, b, c, due, w, id); FitStart(p, a, q, b, c, due, w, id); }
    else if p.pc.ExitScan? { MeetReparent(p, a, q, b, c, due, w, id); FitReparent(p, a, q, b, c, due, w, id); }
    else if p.pc.ExitWakeInit? { MeetWakeInit(p, a, q, b, c, due, w, id); FitWakeInit(p, a, q, b, c, due, w, id); }
    else if p.pc.ExitWakeParent? {
      MeetWakeParent(p, a, q, b, c, due, w, id);
      FitWakeParent(p, a, q, b, c, due, w, id);
    }
    else if p.pc.WaitScan? { MeetLook(p, a, q, b, c, due, w, id); FitLook(p, a, q, b, c, due, w, id); }
    else { MeetCheck(p, a, q, b, c, due, w, id); FitCheck(p, a, q, b, c, due, w, id); }
  }

  lemma MeetKinds(p: Slot, a: nat, q: Slot, b: nat, c: Choice, due: bool, w: int, id: nat)
    requires Meet(p, a, q, b, c, due, w, id)
    ensures p.pc.User? || Makes(p.pc) != -1 || p.pc.ExitScan? || p.pc.ExitWakeInit? || p.pc.ExitWakeParent?
            || p.pc.WaitScan? || p.pc.WaitCheck?
  {
  }

  function IdAfter(p: Slot, p1: Slot, id: nat): nat { if p.pc == User && p1.pc.ForkHeld? then id + 1 else id }

  function ReapedAfter(p: Slot, q: Slot, c: Choice, reaped: map<nat, int>): map<nat, int> {
    if p.pc.WaitCheck? && q.state == Zombie && !c.Fail? then reaped[q.pid := q.xstate] else reaped
  }

  /** The state after it: a fork uses up a pid, a reaped child is recorded. */
  function DuoStep(s: Sys, a: nat, b: nat, c: Choice): Sys
    requires Sized(s) && a < NPROC && b < NPROC
  {
    var p, q := s.slot[a], s.slot[b];
    var d := Duo(p, a, q, b, c, s.waitLock, s.nextpid);
    s.(slot := s.slot[a := d.0][b := d.1], waitLock := d.2,
       nextpid := IdAfter(p, d.0, s.nextpid), reaped := ReapedAfter(p, q, c, s.reaped))
  }

  lemma DuoDue(s: Sys, a: nat, b: nat, c: Choice)
    requires Sized(s) && a < NPROC && b < NPROC
    requires Meet(s.slot[a], a, s.slot[b], b, c, InitDue(s), s.waitLock, s.nextpid)
    ensures var t := DuoStep(s, a, b, c);
            && Sized(t) && InitDue(t) == DueAfter2(s.slot[a], t.slot[a], InitDue(s))
            && (InitDue(s) ==> InitDue(t) || !Sleepy(t.slot[INIT]))
  {
    hide BoundsOk;
  }

  /** The acting slot changes its program counter only. */
  lemma ActorKept(p: Slot, a: nat, q: Slot, b: nat, c: Choice, w: int, id: nat)
    ensures var d := Duo(p, a, q, b, c, w, id); d.0 == p.(pc := d.0.pc) && (Exiting(d.0.pc) <==> Exiting(p.pc))
  {
  }

  lemma OtherPids(p: Slot, a: nat, q: Slot, b: nat, c: Choice, due: bool, w: int, id: nat)
    requires Meet(p, a, q, b, c, due, w, id)
    ensures p.state != Unused && q.state != Unused ==> p.pid != q.pid
  {
    hide Local, Holding, Awake;
  }

  lemma DuoActorId(p: Slot, a: nat, q: Slot, b: nat, c: Choice, due: bool, w: int, id: nat, exited: map<nat, int>,
                   reaped: map<nat, int>)
    requires Meet(p, a, q, b, c, due, w, id) && Identity(p, id, exited, reaped)
    ensures var d := Duo(p, a, q, b, c, w, id); Identity(d.0, IdAfter(p, d.0, id), exited, ReapedAfter(p, q, c, reaped))
  {
    hide Meet, Duo, Exiting;
    ActorKept(p, a, q, b, c, w, id);
    OtherPids(p, a, q, b, c, due, w, id);
  }

  predicate SameIdentity(q: Slot, r: Slot) {
    && r.pid == q.pid && r.arg == q.arg && r.xstate == q.xstate && (Exiting(r.pc) <==> Exiting(q.pc))
    && (r.state == Unused <==> q.state == Unused) && (r.state == Zombie <==> q.state == Zombie)
  }

  /** The other slot is freed, becomes a new process, or stays the same one. */
  lemma TargetKept(p: Slot, a: nat, q: Slot, b: nat, c: Choice, due: bool, w: int, id: nat)
    requires Meet(p, a, q, b, c, due, w, id)
    ensures var d := Duo(p, a, q, b, c, w, id);
            || (d.1 == Freed())
            || (d.0.pc.ForkHeld? && p.pc == User && q.state == Unused
                && d.1 == q.(state := Used, pid := id, lock := a, maker := a))
            || (SameIdentity(q, d.1) && (p.pc.WaitCheck? && q.state == Zombie ==> c.Fail?))
  {
    hide BoundsOk, Awake, Family;
  }

  /** A slot without a process is not exiting. */
  lemma TargetFree(p: Slot, a: nat, q: Slot, b: nat, c: Choice, due: bool, w: int, id: nat)
    requires Meet(p, a, q, b, c, due, w, id)
    ensures (q.state == Unused ==> !Exiting(q.pc)) && !Exiting(Freed().pc)
  {
    hide BoundsOk, Pair;
  }

  lemma DuoTargetId(p: Slot, a: nat, q: Slot, b: nat, c: Choice, due: bool, w: int, id: nat, exited: map<nat, int>,
                    reaped: map<nat, int>)
    requires Meet(p, a, q, b, c, due, w, id) && Identity(q, id, exited, reaped)
    requires (forall i :: i in exited ==> i < id) && forall i :: i in reaped ==> i < id
    ensures var d := Duo(p, a, q, b, c, w, id); Identity(d.1, IdAfter(p, d.0, id), exited, ReapedAfter(p, q, c, reaped))
  {
    hide Duo, Meet, Exiting;
    TargetKept(p, a, q, b, c, due, w, id);
    TargetFree(p, a, q, b, c, due, w, id);
  }

  lemma DuoIdentity(s: Sys, a: nat, b: nat, c: Choice)
    requires Sized(s) && a < NPROC && b < NPROC
    requires Meet(s.slot[a], a, s.slot[b], b, c, InitDue(s), s.waitLock, s.nextpid) && Records(s)
    requires Identity(s.slot[a], s.nextpid, s.exited, s.reaped) && Identity(s.slot[b], s.nextpid, s.exited, s.reaped)
    ensures var t := DuoStep(s, a, b, c);
            && Identity(t.slot[a], t.nextpid, t.exited, t.reaped)
            && Identity(t.slot[b], t.nextpid, t.exited, t.reaped) && Records(t)
  {
    hide InitDue, Known, Duo;
    var p, q := s.slot[a], s.slot[b];
    DuoActorId(p, a, q, b, c, InitDue(s), s.waitLock, s.nextpid, s.exited, s.reaped);
    DuoTargetId(p, a, q, b, c, InitDue(s), s.waitLock, s.nextpid, s.exited, s.reaped);
  }

  lemma DuoInv(s: Sys, a: nat, b: nat, c: Choice)
    requires Inv(s) && a < NPROC && b < NPROC && a != b && Target(s.slot[a], c) == b
    ensures Inv(DuoStep(s, a, b, c))
  {
    hide Inv, Pair, Local, Identity, Records, Duo, Known, DueAfter2, PcFits;
    KnownOf(s, a, b);
    HolderDue2(s, a, b);
    var t := DuoStep(s, a, b, c);
    var p, q, due, w, id := s.slot[a], s.slot[b], InitDue(s), s.waitLock, s.nextpid;
    PidsBelow(s, a);
    PidsBelow(s, b);
    DuoDue(s, a, b, c);
    DuoIdentity(s, a, b, c);
    DuoSelf(p, a, q, b, c, due, w, id);
    forall y: nat | y < NPROC && y != a && y != b
      ensures Linked(t.slot[a], a, s.slot[y], y, InitDue(t)) && Linked(t.slot[b], b, s.slot[y], y, InitDue(t))
    {
      KnownOf(s, a, y);
      KnownOf(s, b, y);
      PidsBelow(s, y);
      DuoPairs(p, a, q, b, s.slot[y], y, c, due, w, id);
    }
    LocalOf(s, a);
    InUse(p, a, w, c, b);
    Two(s, t, a, b);
  }

  lemma HolderDue2(s: Sys, a: nat, b: nat)
    requires Sized(s) && a < NPROC && b < NPROC && Known(s.slot[a], a, s.slot[b], b, InitDue(s), s.waitLock)
    ensures var p := s.slot[a];
            && (p.pc.ExitWakeInit? ==> InitDue(s) == (p.pc.j <= INIT))
            && (HoldsWait(p.pc) && !p.pc.ExitWakeInit? ==> !InitDue(s))
  {
    hide Pair;
  }

  lemma PidsBelow(s: Sys, x: nat)
    requires Inv(s) && x < NPROC
    ensures s.slot[x].state != Unused ==> s.slot[x].pid < s.nextpid
  {
    Use(s, x, x);
  }

  lemma LocalOf(s: Sys, x: nat)
    requires Inv(s) && x < NPROC
    ensures Local(s.slot[x], x, s.waitLock)
  {
    Use(s, x, x);
  }

  /** Only a slot in use takes steps. */
  lemma InUse(p: Slot, a: nat, w: int, c: Choice, b: nat)
    requires Local(p, a, w) && Target(p, c) == b
    ensures p.state != Unused
  {
  }

  // ---------------------------------------------------------------- kill and other wakeups

  /** kkill(), or a wakeup on some other channel. */
  function Rouse(p: Slot, kill: bool): Slot {
    if p.lock != -1 then p
    else if kill then p.(killed := true, state := if p.state == Sleeping then Ready else p.state)
    else if p.pc == Elsewhere && p.state == Sleeping then p.(state := Ready)
    else p
  }

  lemma RousePairs(p: Slot, a: nat, q: Slot, y: nat, kill: bool, due: bool, w: int)
    requires Known(p, a, q, y, due, w)
    ensures Linked(Rouse(p, kill), a, q, y, due) && Linked(Rouse(p, kill), a, Rouse(p, kill), a, due)
  {
    hide BoundsOk;
  }

  lemma RouseLocal(p: Slot, a: nat, kill: bool, w: int)
    requires Local(p, a, w)
    ensures Local(Rouse(p, kill), a, w)
  {
  }

  lemma RouseInv(s: Sys, a: nat, kill: bool)
    requires Inv(s) && a < NPROC
    ensures Sized(s) && Inv(s.(slot := s.slot[a := Rouse(s.slot[a], kill)]))
  {
    hide Inv, Pair, Local, Known;
    KnownOf(s, a, a);
    var t := s.(slot := s.slot[a := Rouse(s.slot[a], kill)]);
    assert InitDue(t) == InitDue(s);
    RousePairs(s.slot[a], a, s.slot[a], a, kill, InitDue(s), s.waitLock);
    LocalOf(s, a);
    RouseLocal(s.slot[a], a, kill, s.waitLock);
    forall y: nat | y < NPROC && y != a ensures Linked(t.slot[a], a, s.slot[y], y, InitDue(t)) {
      KnownOf(s, a, y);
      RousePairs(s.slot[a], a, s.slot[y], y, kill, InitDue(s), s.waitLock);
    }
    One(s, t, a);
  }

  // ---------------------------------------------------------------- runs

  datatype Op = Step(a: nat, c: Choice) | Signal(a: nat, kill: bool)

  /** One step of any process, or nothing if it cannot take one now. */
  function Next(s: Sys, op: Op): Sys
    requires Sized(s)
  {
    if op.a >= NPROC then s
    else if op.Signal? then s.(slot := s.slot[op.a := Rouse(s.slot[op.a], op.kill)])
    else
      var b := Target(s.slot[op.a], op.c);
      if 0 <= b < NPROC && b != op.a then DuoStep(s, op.a, b, op.c) else SoloStep(s, op.a, op.c)
  }

  lemma NextInv(s: Sys, op: Op)
    requires Inv(s)
    ensures Inv(Next(s, op))
  {
    hide Inv, DuoStep, SoloStep, Target, Rouse;
    SizedOf(s);
    if op.a < NPROC {
      if op.Signal? {
        RouseInv(s, op.a, op.kill);
      } else {
        var b := Target(s.slot[op.a], op.c);
        if 0 <= b < NPROC && b != op.a {
          DuoInv(s, op.a, b, op.c);
        } else {
          SoloInv(s, op.a, op.c);
        }
      }
    }
  }

  lemma SizedOf(s: Sys)
    requires Inv(s)
    ensures Sized(s)
  {
  }

  /** userinit(): the first process is in slot INIT, all other slots are unused. */
  function BootSlot(x: nat): Slot { if x == INIT then Slot(Ready, -1, 1, 0, false, -1, -1, User, -1, 0) else Freed() }

  function Boot(): Sys { Sys(seq(NPROC, x requires 0 <= x < NPROC => BootSlot(x)), -1, 2, map[], map[]) }

  lemma BootPair(x: nat, y: nat)
    ensures Pair(BootSlot(x), x, BootSlot(y), y, false) && Local(BootSlot(x), x, -1)
    ensures Identity(BootSlot(x), 2, map[], map[])
  {
  }

  lemma BootInv()
    ensures Inv(Boot())
  {
    hide Pair, Local, Identity, BootSlot;
    var s := Boot();
    assert !InitDue(s);
    forall x: nat | x < NPROC ensures Alone(s, x) {
      assert s.slot[x] == BootSlot(x);
      BootPair(x, x);
    }
    forall x: nat, y: nat | x < NPROC && y < NPROC ensures Both(s, x, y) {
      assert s.slot[x] == BootSlot(x) && s.slot[y] == BootSlot(y);
      BootPair(x, y);
    }
  }

  /** s can be reached by an interleaving of steps. */
  ghost predicate Reached(ops: seq<Op>, s: Sys)
    decreases |ops|
  {
    if ops == [] then s == Boot()
    else exists r :: Sized(r) && Reached(ops[..|ops| - 1], r) && s == Next(r, ops[|ops| - 1])
  }

  lemma {:induction false} ReachedInv(ops: seq<Op>, s: Sys)
    requires Reached(ops, s)
    ensures Inv(s)
    decreases |ops|
  {
    hide Inv, Next;
    if ops == [] {
      BootInv();
    } else {
      var r :| Sized(r) && Reached(ops[..|ops| - 1], r) && s == Next(r, ops[|ops| - 1]);
      ReachedInv(ops[..|ops| - 1], r);
      NextInv(r, ops[|ops| - 1]);
    }
  }

  // ---------------------------------------------------------------- what kwait() knows of the children

  /** Some slot below n has x as its parent. */
  ghost predicate HasKid(slot: seq<Slot>, x: nat, n: nat) {
    exists y: nat :: y < n && y < |slot| && slot[y].parent == x
  }

  /** On its way to sleep, asleep or woken. */
  predicate Resting(pc: PC) { pc.WaitTurnIn? || pc.WaitSleep1? || pc.WaitSleep2? || pc.WaitAsleep? || pc.WaitAgain? }

  /** The scan of kwait() knows whether it has met a child, and sleep() is for parents. */
  ghost predicate ScanOk(slot: seq<Slot>, x: nat)
    requires x < |slot|
  {
    var pc := slot[x].pc;
    && (Resting(pc) ==> HasKid(slot, x, NPROC))
    && (pc.WaitScan? || pc.WaitCheck? ==> (pc.kids <==> HasKid(slot, x, pc.i)))
  }

  ghost predicate ScansOk(s: Sys) { Sized(s) && forall x: nat :: x < NPROC ==> ScanOk(s.slot, x) }

  /** Nobody else takes a child away, and the parent holding wait_lock gets none meanwhile. */
  lemma SameKids(before: seq<Slot>, after: seq<Slot>, x: nat, n: nat)
    requires |before| == |after|
    requires forall y: nat :: y < |before| ==> (before[y].parent == x <==> after[y].parent == x)
    ensures HasKid(before, x, n) <==> HasKid(after, x, n)
  {
    if HasKid(before, x, n) {
      var y: nat :| y < n && y < |before| && before[y].parent == x;
      assert after[y].parent == x;
    }
    if HasKid(after, x, n) {
      var y: nat :| y < n && y < |after| && after[y].parent == x;
      assert before[y].parent == x;
    }
  }

  lemma MoreKids(before: seq<Slot>, after: seq<Slot>, x: nat, n: nat)
    requires |before| == |after| && HasKid(before, x, n)
    requires forall y: nat :: y < |before| && before[y].parent == x ==> after[y].parent == x
    ensures HasKid(after, x, n)
  {
    var y: nat :| y < n && y < |before| && before[y].parent == x;
    assert after[y].parent == x;
  }

  lemma NextKid(slot: seq<Slot>, x: nat, i: nat)
    requires i < |slot|
    ensures HasKid(slot, x, i + 1) <==> HasKid(slot, x, i) || slot[i].parent == x
  {
    if slot[i].parent == x {
      assert i < i + 1 && i < |slot| && slot[i].parent == x;
    }
  }

  lemma NoKid(slot: seq<Slot>, x: nat)
    ensures !HasKid(slot, x, 0)
  {
  }

  /** Whose parent a two-slot step changes: of a slot without one, or of a child of the actor. */
  lemma DuoParent(p: Slot, a: nat, q: Slot, b: nat, c: Choice, due: bool, w: int, id: nat)
    requires Meet(p, a, q, b, c, due, w, id)
    ensures var d := Duo(p, a, q, b, c, w, id);
            && d.0.parent == p.parent
            && (d.1.parent != q.parent ==>
                && (q.parent == -1 || q.parent == a) && !Resting(d.0.pc) && !d.0.pc.WaitScan? && !d.0.pc.WaitCheck?
                && (d.1.parent == -1 || d.1.parent == a || (d.1.parent == INIT && HoldsWait(p.pc))))
            && (d.1.pc == q.pc || d.1.pc == User || d.1.pc == Gone)
  {
    hide BoundsOk, Awake;
  }

  /** What it does to the actor's own scan. */
  lemma DuoScan(p: Slot, a: nat, q: Slot, b: nat, c: Choice, due: bool, w: int, id: nat)
    requires Meet(p, a, q, b, c, due, w, id)
    ensures var pc := Duo(p, a, q, b, c, w, id).0.pc;
            && (Resting(pc) ==> pc == p.pc)
            && (pc.WaitScan? && pc != p.pc ==>
                && (p.pc.WaitScan? || p.pc.WaitCheck?) && p.pc.i == b && pc.i == b + 1
                && (pc.kids <==> p.pc.kids || q.parent == a))
            && (pc.WaitCheck? && pc != p.pc ==> p.pc.WaitScan? && p.pc.i == b && pc == WaitCheck(b, p.pc.kids))
  {
    hide BoundsOk, Awake;
  }

  lemma DuoActorScan(s: Sys, a: nat, b: nat, c: Choice)
    requires Inv(s) && a < NPROC && b < NPROC && a != b && Target(s.slot[a], c) == b && ScanOk(s.slot, a)
    ensures ScanOk(DuoStep(s, a, b, c).slot, a)
  {
    hide Inv, Duo, Meet, HasKid, Known, Target;
    MeetOf(s, a, b, c);
    var p, q, t := s.slot[a], s.slot[b], DuoStep(s, a, b, c);
    DuoParent(p, a, q, b, c, InitDue(s), s.waitLock, s.nextpid);
    DuoScan(p, a, q, b, c, InitDue(s), s.waitLock, s.nextpid);
    var pc := t.slot[a].pc;
    if Resting(pc) || pc.WaitScan? || pc.WaitCheck? {
      SameKids(s.slot, t.slot, a, NPROC);
      NextKid(s.slot, a, b);
      if !Resting(pc) {
        SameKids(s.slot, t.slot, a, pc.i);
      }
    }
  }

  lemma DuoOtherScan(s: Sys, a: nat, b: nat, c: Choice, x: nat)
    requires Inv(s) && a < NPROC && b < NPROC && a != b && Target(s.slot[a], c) == b
    requires x < NPROC && x != a && ScanOk(s.slot, x)
    ensures ScanOk(DuoStep(s, a, b, c).slot, x)
  {
    hide Inv, Duo, Meet, HasKid, Known, Target, Local;
    MeetOf(s, a, b, c);
    var p, q, t := s.slot[a], s.slot[b], DuoStep(s, a, b, c);
    DuoParent(p, a, q, b, c, InitDue(s), s.waitLock, s.nextpid);
    OneHolder(s, a, x);
    var pc := t.slot[x].pc;
    if Resting(pc) {
      MoreKids(s.slot, t.slot, x, NPROC);
    } else if pc.WaitScan? || pc.WaitCheck? {
      SameKids(s.slot, t.slot, x, pc.i);
    }
  }

  lemma OneHolder(s: Sys, a: nat, x: nat)
    requires Inv(s) && a < NPROC && x < NPROC && x != a
    ensures Sized(s) && !(HoldsWait(s.slot[a].pc) && HoldsWait(s.slot[x].pc))
  {
    Use(s, a, x);
  }

  lemma MeetOf(s: Sys, a: nat, b: nat, c: Choice)
    requires Inv(s) && a < NPROC && b < NPROC && a != b && Target(s.slot[a], c) == b
    ensures Sized(s) && Meet(s.slot[a], a, s.slot[b], b, c, InitDue(s), s.waitLock, s.nextpid)
  {
    hide Inv, Known;
    KnownOf(s, a, b);
    HolderDue2(s, a, b);
    PidsBelow(s, a);
    PidsBelow(s, b);
  }

  /** A step that touches one slot changes no parent. */
  lemma SoloScan(s: Sys, a: nat, c: Choice, x: nat)
    requires Inv(s) && a < NPROC && x < NPROC && ScanOk(s.slot, x)
    ensures Sized(s) && ScanOk(SoloStep(s, a, c).slot, x)
  {
    hide Inv, HasKid, Solo, Local;
    SizedOf(s);
    var p, t := s.slot[a], SoloStep(s, a, c);
    LocalOf(s, a);
    OwnParent(s, a);
    SoloPc(p, a, c, s.waitLock);
    forall n: nat ensures HasKid(t.slot, x, n) <==> HasKid(s.slot, x, n) {
      SameKids(s.slot, t.slot, x, n);
    }
    NoKid(s.slot, x);
    NextKid(s.slot, x, a);
  }

  lemma OwnParent(s: Sys, a: nat)
    requires Inv(s) && a < NPROC
    ensures Sized(s) && s.slot[a].parent != a
  {
    Use(s, a, a);
  }

  lemma SoloPc(p: Slot, a: nat, c: Choice, w: int)
    requires a < NPROC && Local(p, a, w)
    ensures var q := Solo(p, a, c, w).0;
            && q.parent == p.parent
            && (Resting(q.pc) ==> Resting(p.pc) || p.pc == WaitScan(NPROC, true))
            && (q.pc.WaitCheck? ==> q.pc == p.pc)
            && (q.pc.WaitScan? ==>
                q.pc == p.pc || q.pc == WaitScan(0, false) || (p.pc == WaitScan(a, q.pc.kids) && q.pc.i == a + 1))
  {
  }

  lemma NextScans(s: Sys, op: Op)
    requires Inv(s) && ScansOk(s)
    ensures ScansOk(Next(s, op))
  {
    hide Inv, DuoStep, SoloStep, Target, Rouse, ScanOk;
    NextInv(s, op);
    var t := Next(s, op);
    SizedOf(t);
    forall x: nat | x < NPROC ensures ScanOk(t.slot, x) {
      NextScan(s, op, x);
    }
  }

  lemma NextScan(s: Sys, op: Op, x: nat)
    requires Inv(s) && Sized(s) && x < NPROC && ScanOk(s.slot, x)
    ensures x < |Next(s, op).slot| && ScanOk(Next(s, op).slot, x)
  {
    hide Inv, DuoStep, SoloStep, Target, Rouse, ScanOk;
    if op.a < NPROC {
      if op.Signal? {
        RouseScan(s, op.a, op.kill, x);
      } else {
        var b := Target(s.slot[op.a], op.c);
        if 0 <= b < NPROC && b != op.a {
          DuoSized(s, op.a, b, op.c);
          if x == op.a {
            DuoActorScan(s, op.a, b, op.c);
          } else {
            DuoOtherScan(s, op.a, b, op.c, x);
          }
        } else {
          SoloSized(s, op.a, op.c);
          SoloScan(s, op.a, op.c, x);
        }
      }
    }
  }

  lemma DuoSized(s: Sys, a: nat, b: nat, c: Choice)
    requires Sized(s) && a < NPROC && b < NPROC
    ensures |DuoStep(s, a, b, c).slot| == NPROC
  {
  }

  lemma SoloSized(s: Sys, a: nat, c: Choice)
    requires Sized(s) && a < NPROC
    ensures |SoloStep(s, a, c).slot| == NPROC
  {
  }

  lemma RouseScan(s: Sys, a: nat, kill: bool, x: nat)
    requires Sized(s) && a < NPROC && x < NPROC && ScanOk(s.slot, x)
    ensures ScanOk(s.slot[a := Rouse(s.slot[a], kill)], x)
  {
    hide HasKid;
    var slot := s.slot[a := Rouse(s.slot[a], kill)];
    SameKids(s.slot, slot, x, NPROC);
    if s.slot[x].pc.WaitScan? || s.slot[x].pc.WaitCheck? {
      SameKids(s.slot, slot, x, s.slot[x].pc.i);
    }
  }

  lemma {:induction false} ReachedScans(ops: seq<Op>, s: Sys)
    requires Reached(ops, s)
    ensures ScansOk(s)
    decreases |ops|
  {
    hide Inv, Next, ScanOk;
    if ops == [] {
      forall x: nat | x < NPROC ensures ScanOk(s.slot, x) {
        BootScan(x);
      }
    } else {
      var r :| Sized(r) && Reached(ops[..|ops| - 1], r) && s == Next(r, ops[|ops| - 1]);
      ReachedInv(ops[..|ops| - 1], r);
      ReachedScans(ops[..|ops| - 1], r);
      NextScans(r, ops[|ops| - 1]);
    }
  }

  lemma BootScan(x: nat)
    requires x < NPROC
    ensures ScanOk(Boot().slot, x)
  {
    assert Boot().slot[x] == BootSlot(x);
  }

  // ---------------------------------------------------------------- what every run keeps

  /** When wait_lock is free, a process asleep in kwait() has no zombie child. */
  lemma NoLostChild(ops: seq<Op>, s: Sys, p: nat, c: nat)
    requires Reached(ops, s) && Sized(s) && s.waitLock == -1 && p < NPROC && c < NPROC
    requires s.slot[p].pc == WaitAsleep && s.slot[p].state == Sleeping && s.slot[c].parent == p
    ensures s.slot[c].state != Zombie
  {
    ReachedInv(ops, s);
    Use(s, p, c);
  }

  /** No child has a parent that is a zombie or gone. */
  lemma NoDeadParent(ops: seq<Op>, s: Sys, c: nat)
    requires Reached(ops, s) && Sized(s) && c < NPROC && s.slot[c].parent != -1
    ensures 0 <= s.slot[c].parent < NPROC && Alive(s.slot[s.slot[c].parent])
  {
    ReachedInv(ops, s);
    Use(s, c, c);
    Use(s, s.slot[c].parent, c);
  }

  lemma ZombieFacts(s: Sys, a: nat, i: nat, kids: bool)
    requires Inv(s) && a < NPROC && s.slot[a].pc == WaitCheck(i, kids) && i < NPROC && s.slot[i].state == Zombie
    ensures var q := s.slot[i];
            && q.parent == a && i != a && q.pc == Gone
            && q.pid !in s.reaped && q.pid in s.exited && s.exited[q.pid] == q.xstate
  {
    hide Awake, Exiting, Records;
    Use(s, a, i);
  }

  lemma ReapStep(s: Sys, a: nat, i: nat, kids: bool)
    requires Sized(s) && a < NPROC && s.slot[a].pc == WaitCheck(i, kids) && i < NPROC && i != a
    requires s.slot[i].state == Zombie
    ensures var q, t := s.slot[i], Next(s, Step(a, Proceed));
            && t.reaped == s.reaped[q.pid := q.xstate] && Sized(t) && t.slot[i].state == Unused
            && t.slot[a].pc == WaitDone(q.pid)
  {
  }

  /** A wait that finds zombie i: it is a child of the caller, it has left its kernel stack, it
      was never reaped before, and its own pid and exit status are what is returned. */
  lemma ReapedOnce(ops: seq<Op>, s: Sys, a: nat, i: nat, kids: bool)
    requires Reached(ops, s) && Sized(s) && a < NPROC && s.slot[a].pc == WaitCheck(i, kids) && i < NPROC
    requires s.slot[i].state == Zombie
    ensures var q, t := s.slot[i], Next(s, Step(a, Proceed));
            && q.parent == a && q.pc == Gone && q.pid !in s.reaped && q.pid in s.exited && s.exited[q.pid] == q.xstate
            && t.reaped == s.reaped[q.pid := q.xstate] && Sized(t) && t.slot[i].state == Unused
            && t.slot[a].pc == WaitDone(q.pid)
  {
    hide Inv, Next, Identity, Pair, Local;
    ReachedInv(ops, s);
    ZombieFacts(s, a, i, kids);
    ReapStep(s, a, i, kids);
  }

  /** Step k of the run is the call of exit() with this status by the process with this pid. */
  ghost predicate ExitCall(ops: seq<Op>, k: nat, id: nat, status: int) {
    && k < |ops| && ops[k].Step? && ops[k].c == Exit(status)
    && exists r :: Reached(ops[..k], r) && Sized(r) && ops[k].a < NPROC && r.slot[ops[k].a].pid == id
  }

  lemma ExitStep(r: Sys, op: Op, id: nat)
    requires Sized(r) && id in Next(r, op).exited && !(id in r.exited && r.exited[id] == Next(r, op).exited[id])
    ensures op.Step? && op.a < NPROC && op.c.Exit? && r.slot[op.a].pid == id && Next(r, op).exited[id] == op.c.status
  {
    hide Solo, Duo, Target;
  }

  lemma {:induction false} ExitedBy(ops: seq<Op>, s: Sys, id: nat) returns (k: nat)
    requires Reached(ops, s) && id in s.exited
    ensures ExitCall(ops, k, id, s.exited[id])
    decreases |ops|
  {
    hide Next;
    k := 0;
    if ops != [] {
      var n := |ops| - 1;
      var r :| Sized(r) && Reached(ops[..n], r) && s == Next(r, ops[n]);
      if id in r.exited && r.exited[id] == s.exited[id] {
        k := ExitedBy(ops[..n], r, id);
        assert ops[..n][..k] == ops[..k];
      } else {
        ExitStep(r, ops[n], id);
        k := n;
      }
    }
  }

  /** Over a whole run: what wait returned for a pid is what that process called exit() with. */
  lemma StatusDelivered(ops: seq<Op>, s: Sys, id: nat) returns (k: nat)
    requires Reached(ops, s) && id in s.reaped
    ensures ExitCall(ops, k, id, s.reaped[id])
  {
    hide ExitCall;
    ReachedInv(ops, s);
    k := ExitedBy(ops, s, id);
  }

  /** Whoever sleeps in kwait(), or is about to, has a child. */
  lemma SleeperHasChild(ops: seq<Op>, s: Sys, p: nat)
    requires Reached(ops, s) && Sized(s) && p < NPROC && Resting(s.slot[p].pc)
    ensures HasKid(s.slot, p, NPROC)
  {
    ReachedScans(ops, s);
    assert ScanOk(s.slot, p);
  }

  lemma ScannedAll(s: Sys, a: nat, y: nat)
    requires Inv(s) && a < NPROC && y < NPROC && s.slot[y].parent == a
    requires s.slot[a].pc.WaitScan? && s.slot[a].pc.i == NPROC
    ensures s.slot[y].state != Zombie
  {
    hide Holding, Family, Local, Identity;
    Use(s, a, y);
  }

  /** The end of kwait()'s scan: it returns -1 exactly if the process was killed or has no child
      at all, and goes to sleep otherwise; no child is a zombie then. */
  lemma ScanEnds(ops: seq<Op>, s: Sys, a: nat, kids: bool, c: Choice)
    requires Reached(ops, s) && Sized(s) && a < NPROC && s.slot[a].pc == WaitScan(NPROC, kids) && s.slot[a].lock == -1
    ensures var t := Next(s, Step(a, c));
            && Sized(t) && t == s.(slot := s.slot[a := s.slot[a].(pc := t.slot[a].pc)])
            && (t.slot[a].pc == WaitDone(-1) <==> s.slot[a].killed || !HasKid(s.slot, a, NPROC))
            && (t.slot[a].pc == WaitTurnIn <==> t.slot[a].pc != WaitDone(-1))
            && forall y: nat :: y < NPROC && s.slot[y].parent == a ==> s.slot[y].state != Zombie
  {
    hide Inv, HasKid, Local, Identity, Pair, Reached;
    ReachedInv(ops, s);
    ReachedScans(ops, s);
    assert ScanOk(s.slot, a);
    forall y: nat | y < NPROC && s.slot[y].parent == a ensures s.slot[y].state != Zombie {
      ScannedAll(s, a, y);
    }
  }

  /** What kwait() has found when a step brings it to its end: it returns the pid of a child it has
      just reaped; or -1 with nothing reaped, because the copy to the caller failed, the caller was
      killed or it has no child. */
  ghost predicate Answered(s: Sys, t: Sys, a: nat, c: Choice)
    requires |s.slot| == |t.slot| == NPROC && a < NPROC && t.slot[a].pc.WaitDone?
  {
    var r := t.slot[a].pc.r;
    if r != -1 then exists i: nat :: i < NPROC && s.slot[i].parent == a && Reaped(s, t, i, r)
    else
      && t.reaped == s.reaped
      && (s.slot[a].killed || (c.Fail? && s.slot[a].pc.WaitCheck?) || !HasKid(s.slot, a, NPROC))
  }

  /** Zombie i is gone, and its pid and status are what is returned. */
  predicate Reaped(s: Sys, t: Sys, i: nat, r: int)
    requires |s.slot| == |t.slot| == NPROC && i < NPROC
  {
    var q := s.slot[i];
    q.state == Zombie && q.pid == r && t.slot[i] == Freed() && t.reaped == s.reaped[q.pid := q.xstate]
  }

  lemma NotDone(p: Slot, a: nat, c: Choice, w: int, q: Slot, b: nat, id: nat)
    requires !p.pc.WaitDone? && !p.pc.WaitCheck? && (p.pc.WaitScan? ==> p.pc.i != NPROC || p.lock != -1)
    ensures !Solo(p, a, c, w).0.pc.WaitDone? && !Duo(p, a, q, b, c, w, id).0.pc.WaitDone?
  {
  }

  lemma NoneDone(s: Sys, a: nat, c: Choice)
    requires Sized(s) && a < NPROC && !s.slot[a].pc.WaitDone? && !s.slot[a].pc.WaitCheck?
    requires s.slot[a].pc.WaitScan? ==> s.slot[a].pc.i != NPROC || s.slot[a].lock != -1
    ensures a < |Next(s, Step(a, c)).slot| && !Next(s, Step(a, c)).slot[a].pc.WaitDone?
  {
    hide Solo, Duo, Target;
    var target := Target(s.slot[a], c);
    var b := if 0 <= target < NPROC then target else 0;
    NotDone(s.slot[a], a, c, s.waitLock, s.slot[b], b, s.nextpid);
  }

  lemma CheckReaps(s: Sys, a: nat, c: Choice)
    requires Sized(s) && a < NPROC && s.slot[a].pc.WaitCheck? && s.slot[a].pc.i < NPROC && s.slot[a].pc.i != a
    ensures var i, t := s.slot[a].pc.i, Next(s, Step(a, c));
            && |t.slot| == NPROC
            && (t.slot[a].pc.WaitDone? ==>
                if t.slot[a].pc.r != -1 then Reaped(s, t, i, t.slot[a].pc.r) else t.reaped == s.reaped && c.Fail?)
  {
  }

  lemma CheckedChild(s: Sys, a: nat)
    requires Inv(s) && a < NPROC && s.slot[a].pc.WaitCheck?
    ensures var i := s.slot[a].pc.i; i < NPROC && i != a && s.slot[i].parent == a
  {
    Use(s, a, a);
    Use(s, a, s.slot[a].pc.i);
  }

  lemma WaitAnswers(ops: seq<Op>, s: Sys, a: nat, c: Choice)
    requires Reached(ops, s) && Sized(s) && a < NPROC && !s.slot[a].pc.WaitDone?
    ensures var t := Next(s, Step(a, c));
            && |t.slot| == NPROC && (t.slot[a].pc.WaitDone? ==> Answered(s, t, a, c))
  {
    hide Inv, Next, Reaped, HasKid;
    var p := s.slot[a];
    ReachedInv(ops, s);
    NextInv(s, Step(a, c));
    SizedOf(Next(s, Step(a, c)));
    if p.pc.WaitCheck? {
      CheckedChild(s, a);
      CheckReaps(s, a, c);
    } else if p.pc.WaitScan? && p.pc.i == NPROC && p.lock == -1 {
      ScanEnds(ops, s, a, p.pc.kids, c);
    } else {
      NoneDone(s, a, c);
    }
  }

  /** In kwait(), from the first acquire of wait_lock to the last release. */
  predicate InWait(pc: PC) { pc.WaitScan? || pc.WaitCheck? || pc.WaitDone? || Resting(pc) }

  predicate InFork(pc: PC) { Makes(pc) != -1 }

  predicate Ends(pc: PC, pc': PC) {
    && (InWait(pc) && !InWait(pc') ==> pc.WaitDone? && pc' == User)
    && (Exiting(pc) ==> Exiting(pc') || pc' == Gone)
    && (InFork(pc) && !InFork(pc') ==> pc' == User && (pc.ForkStart? || pc.ForkHeld?))
    && (pc.WaitAsleep? && pc' != pc ==> pc' == WaitAgain)
    && (pc.WaitAgain? && pc' != pc ==> pc' == WaitScan(0, false))
  }

  lemma SoloEnds(p: Slot, a: nat, c: Choice, w: int)
    ensures Ends(p.pc, Solo(p, a, c, w).0.pc)
  {
  }

  lemma DuoEnds(p: Slot, a: nat, q: Slot, b: nat, c: Choice, w: int, id: nat)
    ensures Ends(p.pc, Duo(p, a, q, b, c, w, id).0.pc)
  {
  }

  /** Nobody else moves a process on. */
  lemma TargetPc(p: Slot, a: nat, q: Slot, b: nat, c: Choice, due: bool, w: int, id: nat)
    requires Meet(p, a, q, b, c, due, w, id)
    ensures var pc := Duo(p, a, q, b, c, w, id).1.pc; pc == q.pc || q.pc == Gone
  {
    hide BoundsOk, Awake;
  }

  /** Calls end as they should: kwait() only with an answer, exit never, fork() with the child started
      or, while allocproc()'s lock is held, with nothing; and who sleeps in kwait() looks again. */
  lemma CallsEnd(s: Sys, x: nat, op: Op)
    requires Inv(s) && x < NPROC
    ensures Sized(s) && |Next(s, op).slot| == NPROC
    ensures Ends(s.slot[x].pc, Next(s, op).slot[x].pc)
  {
    hide Inv, Solo, Duo, Target;
    SizedOf(s);
    if op.a < NPROC && op.Step? {
      var a, b := op.a, Target(s.slot[op.a], op.c);
      SoloEnds(s.slot[a], a, op.c, s.waitLock);
      if 0 <= b < NPROC {
        DuoEnds(s.slot[a], a, s.slot[b], b, op.c, s.waitLock, s.nextpid);
        if b != a {
          MeetOf(s, a, b, op.c);
          TargetPc(s.slot[a], a, s.slot[b], b, op.c, InitDue(s), s.waitLock, s.nextpid);
        }
      }
    }
  }

  // ---------------------------------------------------------------- no deadlock

  /** A process with something left to do in fork, exit, wait or sleep. */
  predicate Busy(p: Slot) { (p.state == Ready && p.pc != User) || p.pc == ExitZombie || p.pc == ExitSwitch }

  predicate Moves(s: Sys, b: nat)
    requires Sized(s) && b < NPROC
  {
    var t := Next(s, Step(b, Proceed));
    |t.slot| == NPROC && t.slot[b].pc != s.slot[b].pc
  }

  /** Who holds the lock of a slot waits for nobody. */
  lemma HolderMoves(s: Sys, b: nat)
    requires Inv(s) && b < NPROC && Held(s.slot[b].pc, b) != -1
    ensures Sized(s) && Moves(s, b) && Busy(s.slot[b])
  {
    hide Awake, Identity, Records;
    Use(s, b, b);
    var np := Held(s.slot[b].pc, b);
    assert np < NPROC;
    Use(s, b, np);
  }

  /** Unless the lock of some slot is held, neither does who holds wait_lock. */
  lemma WaitHolderMoves(s: Sys, x: nat)
    requires Inv(s) && x < NPROC && HoldsWait(s.slot[x].pc) && forall y: nat :: y < NPROC ==> s.slot[y].lock == -1
    ensures Sized(s) && Moves(s, x) && Busy(s.slot[x])
  {
    hide Awake, Family, Identity, Records;
    Use(s, x, x);
    var b := Target(s.slot[x], Proceed);
    if 0 <= b < NPROC {
      Use(s, x, b);
    }
  }

  lemma FreeMoves(s: Sys, a: nat)
    requires Inv(s) && a < NPROC && Busy(s.slot[a]) && s.waitLock == -1
    requires forall y: nat :: y < NPROC ==> s.slot[y].lock == -1
    ensures Sized(s) && Moves(s, a)
  {
    hide Awake, Family, Identity, Records;
    Use(s, a, a);
    var np := Makes(s.slot[a].pc);
    if np != -1 {
      assert np < NPROC;
      Use(s, a, np);
    }
  }

  lemma LockHeld(s: Sys, y: nat)
    requires Inv(s) && y < NPROC && s.slot[y].lock != -1
    ensures 0 <= s.slot[y].lock < NPROC && Held(s.slot[s.slot[y].lock].pc, s.slot[y].lock) == y
  {
    Use(s, y, y);
    Use(s, s.slot[y].lock, y);
  }

  /** As long as somebody has something left to do in fork, exit, wait or sleep, somebody can. */
  lemma NoDeadlock(ops: seq<Op>, s: Sys, a: nat)
    requires Reached(ops, s) && Sized(s) && a < NPROC && Busy(s.slot[a])
    ensures exists b: nat :: b < NPROC && Busy(s.slot[b]) && Moves(s, b)
  {
    hide Inv, Moves, Busy, Reached;
    ReachedInv(ops, s);
    if y: nat :| y < NPROC && s.slot[y].lock != -1 {
      LockHeld(s, y);
      HolderMoves(s, s.slot[y].lock);
    } else if s.waitLock != -1 {
      LocalOf(s, s.waitLock);
      WaitHolderMoves(s, s.waitLock);
    } else {
      FreeMoves(s, a);
    }
  }

  // ---------------------------------------------------------------- fork and kill

  lemma MadeFacts(s: Sys, a: nat)
    requires Inv(s) && a < NPROC && s.slot[a].pc.ForkStart?
    ensures var np := s.slot[a].pc.np;
            && np < NPROC && np != a && s.slot[np].state == Used && s.slot[np].parent == a
            && s.slot[np].pid !in s.exited && s.slot[np].pid !in s.reaped
  {
    hide Awake, Family, Records;
    Use(s, a, a);
    Use(s, a, s.slot[a].pc.np);
  }

  lemma StartStep(s: Sys, a: nat, np: nat, c: Choice)
    requires Sized(s) && a < NPROC && np < NPROC && np != a && s.slot[a].pc == ForkStart(np) && s.slot[np].lock == -1
    ensures Next(s, Step(a, c)) ==
            s.(slot := s.slot[a := s.slot[a].(pc := User)][np := s.slot[np].(state := Ready, pc := User)])
  {
  }

  lemma PidsDiffer(s: Sys, x: nat, y: nat)
    requires Inv(s) && x < NPROC && y < NPROC && x != y && s.slot[x].state != Unused && s.slot[y].state != Unused
    ensures s.slot[x].pid != s.slot[y].pid
  {
    hide Awake, Holding, Local, Identity;
    Use(s, x, y);
  }

  /** The last step of fork: the child is runnable, its parent is the caller, and its pid is nobody
      else's and was never used. */
  lemma ForkGives(ops: seq<Op>, s: Sys, a: nat, np: nat, c: Choice)
    requires Reached(ops, s) && Sized(s) && a < NPROC && s.slot[a].pc == ForkStart(np)
    ensures np < NPROC && np != a
    ensures s.slot[np].lock == -1 ==>
              var t := Next(s, Step(a, c));
              && t == s.(slot := s.slot[a := s.slot[a].(pc := User)][np := s.slot[np].(state := Ready, pc := User)])
              && s.slot[np].parent == a && s.slot[np].pid !in s.exited && s.slot[np].pid !in s.reaped
    ensures forall y: nat :: y < NPROC && y != np && s.slot[y].state != Unused ==> s.slot[y].pid != s.slot[np].pid
  {
    hide Inv, Next, Local, Pair, Identity;
    ReachedInv(ops, s);
    MadeFacts(s, a);
    if s.slot[np].lock == -1 {
      StartStep(s, a, np, c);
    }
    forall y: nat | y < NPROC && y != np && s.slot[y].state != Unused ensures s.slot[y].pid != s.slot[np].pid {
      PidsDiffer(s, y, np);
    }
  }

  lemma SoloKilled(p: Slot, a: nat, c: Choice, w: int)
    ensures Solo(p, a, c, w).0.killed == p.killed
  {
  }

  lemma DuoKilled(p: Slot, a: nat, q: Slot, b: nat, c: Choice, w: int, id: nat)
    ensures var d := Duo(p, a, q, b, c, w, id); d.0.killed == p.killed && (d.1.killed == q.killed || d.1 == Freed())
  {
  }

  /** A kill that gets the lock leaves the victim marked and awake, and whoever is marked stays so
      until its slot is freed. */
  lemma KillStays(s: Sys, v: nat, op: Op)
    requires Sized(s) && v < NPROC
    ensures |Next(s, op).slot| == NPROC
    ensures s.slot[v].lock == -1 && op == Signal(v, true) ==>
              Next(s, op).slot[v].killed && Next(s, op).slot[v].state != Sleeping
    ensures s.slot[v].killed ==> Next(s, op).slot[v].killed || Next(s, op).slot[v] == Freed()
  {
    hide Solo, Duo, Target;
    if op.a < NPROC && op.Step? {
      var b := Target(s.slot[op.a], op.c);
      SoloKilled(s.slot[op.a], op.a, op.c, s.waitLock);
      if 0 <= b < NPROC {
        DuoKilled(s.slot[op.a], op.a, s.slot[b], b, op.c, s.waitLock, s.nextpid);
      }
    }
  }

  // ---------------------------------------------------------------- one life, from fork to wait

  ghost predicate Reachable(s: Sys) { Sized(s) && exists ops :: Reached(ops, s) }

  lemma Go(s: Sys, op: Op)
    requires Reachable(s)
    ensures Reachable(Next(s, op))
  {
    hide Next, Inv;
    var ops :| Reached(ops, s);
    assert (ops + [op])[..|ops|] == ops;
    assert Reached(ops + [op], Next(s, op));
    ReachedInv(ops + [op], Next(s, op));
    SizedOf(Next(s, op));
  }

  /** Init in slot 0, its child in slot 1, all other slots unused. */
  function Scene(p: Slot, q: Slot, w: int, next: nat, exited: map<nat, int>, reaped: map<nat, int>): Sys {
    var slot := seq(NPROC, x requires 0 <= x < NPROC => if x == 0 then p else if x == 1 then q else Freed());
    Sys(slot, w, next, exited, reaped)
  }

  lemma ForkTarget(p: Slot, q: Slot, b: nat, c: Choice, w: int, next: nat)
    ensures p.pc == User && Target(p, c) == b && Duo(p, 0, q, b, c, w, next).0.pc.ForkHeld? ==>
              Duo(p, 0, q, b, c, w, next).0.pc == ForkHeld(b)
  {
  }

  /** Init takes a step that looks at nobody else, at its child, or at an unused slot. */
  lemma InitSteps(p: Slot, q: Slot, w: int, next: nat, exited: map<nat, int>, reaped: map<nat, int>, c: Choice)
    requires -1 <= w < NPROC
    ensures var s, b := Scene(p, q, w, next, exited, reaped), Target(p, c);
            && Sized(s)
            && (b == 1 ==>
                var d := Duo(p, 0, q, 1, c, w, next);
                Next(s, Step(0, c)) ==
                Scene(d.0, d.1, d.2, IdAfter(p, d.0, next), exited, ReapedAfter(p, q, c, reaped)))
            && (2 <= b < NPROC && !p.pc.WaitCheck? ==>
                var d := Duo(p, 0, Freed(), b, c, w, next);
                d.1 == Freed() && d.0.pc != ForkHeld(b) ==>
                Next(s, Step(0, c)) == Scene(d.0, q, d.2, next, exited, reaped))
            && (b <= 0 || b >= NPROC ==>
                var d := Solo(p, 0, c, w);
                !d.0.pc.ExitScan? ==> Next(s, Step(0, c)) == Scene(d.0, q, d.1, next, exited, reaped))
  {
    hide Solo, Duo, Target;
    var s, b := Scene(p, q, w, next, exited, reaped), Target(p, c);
    if b == 1 {
      var d := Duo(p, 0, q, 1, c, w, next);
      assert s.slot[0 := d.0][1 := d.1] == Scene(d.0, d.1, w, next, exited, reaped).slot;
    } else if 2 <= b < NPROC {
      var d := Duo(p, 0, Freed(), b, c, w, next);
      ForkTarget(p, Freed(), b, c, w, next);
      if d.1 == Freed() {
        assert s.slot[0 := d.0][b := d.1] == Scene(d.0, q, w, next, exited, reaped).slot;
      }
    } else {
      var d := Solo(p, 0, c, w);
      assert s.slot[0 := d.0] == Scene(d.0, q, w, next, exited, reaped).slot;
    }
  }

  lemma NoFork(q: Slot, p: Slot, b: nat, c: Choice, w: int, next: nat)
    requires q.pc == User ==> !c.Fork?
    ensures IdAfter(q, Duo(q, 1, p, b, c, w, next).0, next) == next
  {
  }

  /** So does the child. */
  lemma ChildSteps(p: Slot, q: Slot, w: int, next: nat, exited: map<nat, int>, reaped: map<nat, int>, c: Choice)
    requires -1 <= w < NPROC && !q.pc.WaitCheck? && (q.pc == User ==> !c.Fork?)
    ensures var s, b := Scene(p, q, w, next, exited, reaped), Target(q, c);
            && Sized(s)
            && (b == 0 ==>
                var d := Duo(q, 1, p, 0, c, w, next);
                Next(s, Step(1, c)) == Scene(d.1, d.0, d.2, next, exited, reaped))
            && (2 <= b < NPROC ==>
                var d := Duo(q, 1, Freed(), b, c, w, next);
                d.1 == Freed() ==> Next(s, Step(1, c)) == Scene(p, d.0, d.2, next, exited, reaped))
            && (b < 0 || b == 1 || b >= NPROC ==>
                var d := Solo(q, 1, c, w);
                var exits := q.pc == User && c.Exit? && d.0.pc.ExitScan?;
                Next(s, Step(1, c)) ==
                Scene(p, d.0, d.1, next, if exits then exited[q.pid := c.status] else exited, reaped))
  {
    hide Solo, Duo, Target;
    var s, b := Scene(p, q, w, next, exited, reaped), Target(q, c);
    NoFork(q, p, if 0 <= b then b else 0, c, w, next);
    NoFork(q, Freed(), if 0 <= b then b else 0, c, w, next);
    if b == 0 {
      var d := Duo(q, 1, p, 0, c, w, next);
      assert s.slot[1 := d.0][0 := d.1] == Scene(d.1, d.0, w, next, exited, reaped).slot;
    } else if 2 <= b < NPROC {
      var d := Duo(q, 1, Freed(), b, c, w, next);
      if d.1 == Freed() {
        assert s.slot[1 := d.0][b := d.1] == Scene(p, d.0, w, next, exited, reaped).slot;
      }
    } else {
      var d := Solo(q, 1, c, w);
      assert s.slot[1 := d.0] == Scene(p, d.0, w, next, exited, reaped).slot;
    }
  }

  function InitAt(pc: PC, state: State, chan: int, lock: int): Slot {
    Slot(state, -1, 1, 0, false, chan, lock, pc, -1, 0)
  }

  function ChildAt(pc: PC, state: State, parent: int, xstate: int, arg: int, lock: int): Slot {
    Slot(state, parent, 2, xstate, false, -1, lock, pc, 0, arg)
  }

  lemma BootReached()
    ensures Reachable(Boot())
  {
    assert Reached([], Boot());
  }

  /** fork(): four steps. */
  lemma Forks()
    ensures Reachable(Scene(InitAt(User, Ready, -1, -1), ChildAt(User, Ready, 0, 0, 0, -1), -1, 3, map[], map[]))
  {
    hide Reachable;
    var p := InitAt(User, Ready, -1, -1);
    assert Boot().slot == Scene(p, Freed(), -1, 2, map[], map[]).slot;
    BootReached();
    InitSteps(p, Freed(), -1, 2, map[], map[], Fork(1));
    Go(Boot(), Step(0, Fork(1)));
    var q := ChildAt(Gone, Used, -1, 0, 0, 0);
    InitSteps(p.(pc := ForkHeld(1)), q, -1, 3, map[], map[], Proceed);
    Go(Scene(p.(pc := ForkHeld(1)), q, -1, 3, map[], map[]), Step(0, Proceed));
    InitSteps(p.(pc := ForkFree(1)), q.(lock := -1), -1, 3, map[], map[], Proceed);
    Go(Scene(p.(pc := ForkFree(1)), q.(lock := -1), -1, 3, map[], map[]), Step(0, Proceed));
    InitSteps(p.(pc := ForkStart(1)), q.(lock := -1, parent := 0), -1, 3, map[], map[], Proceed);
    Go(Scene(p.(pc := ForkStart(1)), q.(lock := -1, parent := 0), -1, 3, map[], map[]), Step(0, Proceed));
  }

  /** Init scans the unused slots from i on. */
  lemma {:induction false} ScansOn(q: Slot, i: nat, kids: bool)
    requires 2 <= i <= NPROC
    requires Reachable(Scene(InitAt(WaitScan(i, kids), Ready, -1, -1), q, 0, 3, map[], map[]))
    ensures Reachable(Scene(InitAt(WaitScan(NPROC, kids), Ready, -1, -1), q, 0, 3, map[], map[]))
    decreases NPROC - i
  {
    hide Reachable;
    if i < NPROC {
      var p := InitAt(WaitScan(i, kids), Ready, -1, -1);
      InitSteps(p, q, 0, 3, map[], map[], Proceed);
      Go(Scene(p, q, 0, 3, map[], map[]), Step(0, Proceed));
      ScansOn(q, i + 1, kids);
    }
  }

  /** sleep() with its lock held. */
  lemma Sleeps(q: Slot)
    requires Reachable(Scene(InitAt(WaitSleep1, Ready, -1, 0), q, 0, 3, map[], map[]))
    ensures Reachable(Scene(InitAt(WaitAsleep, Sleeping, 0, -1), q, -1, 3, map[], map[]))
  {
    hide Reachable;
    var p := InitAt(User, Ready, -1, -1);
    InitSteps(p.(pc := WaitSleep1, lock := 0), q, 0, 3, map[], map[], Proceed);
    Go(Scene(p.(pc := WaitSleep1, lock := 0), q, 0, 3, map[], map[]), Step(0, Proceed));
    InitSteps(p.(pc := WaitSleep2, lock := 0), q, -1, 3, map[], map[], Proceed);
    Go(Scene(p.(pc := WaitSleep2, lock := 0), q, -1, 3, map[], map[]), Step(0, Proceed));
  }

  lemma FallsAsleep(q: Slot)
    requires Reachable(Scene(InitAt(WaitScan(NPROC, true), Ready, -1, -1), q, 0, 3, map[], map[]))
    ensures Reachable(Scene(InitAt(WaitAsleep, Sleeping, 0, -1), q, -1, 3, map[], map[]))
  {
    hide Reachable;
    var p := InitAt(User, Ready, -1, -1);
    InitSteps(p.(pc := WaitScan(NPROC, true)), q, 0, 3, map[], map[], Proceed);
    Go(Scene(p.(pc := WaitScan(NPROC, true)), q, 0, 3, map[], map[]), Step(0, Proceed));
    InitSteps(p.(pc := WaitTurnIn), q, 0, 3, map[], map[], Proceed);
    Go(Scene(p.(pc := WaitTurnIn), q, 0, 3, map[], map[]), Step(0, Proceed));
    Sleeps(q);
  }

  /** A child that runs. */
  lemma LooksAt(q: Slot)
    requires q.state == Ready && q.parent == 0 && q.lock == -1
    requires Reachable(Scene(InitAt(WaitScan(1, false), Ready, -1, -1), q, 0, 3, map[], map[]))
    ensures Reachable(Scene(InitAt(WaitScan(2, true), Ready, -1, -1), q, 0, 3, map[], map[]))
  {
    hide Reachable;
    var p := InitAt(User, Ready, -1, -1);
    InitSteps(p.(pc := WaitScan(1, false)), q, 0, 3, map[], map[], Proceed);
    Go(Scene(p.(pc := WaitScan(1, false)), q, 0, 3, map[], map[]), Step(0, Proceed));
    InitSteps(p.(pc := WaitCheck(1, false)), q.(lock := 0), 0, 3, map[], map[], Proceed);
    Go(Scene(p.(pc := WaitCheck(1, false)), q.(lock := 0), 0, 3, map[], map[]), Step(0, Proceed));
  }

  /** kwait() finds a child that runs, and goes to sleep. */
  lemma GoesToSleep()
    ensures var p, q := InitAt(WaitAsleep, Sleeping, 0, -1), ChildAt(User, Ready, 0, 0, 0, -1);
            Reachable(Scene(p, q, -1, 3, map[], map[]))
  {
    hide Reachable;
    Forks();
    var p, q := InitAt(User, Ready, -1, -1), ChildAt(User, Ready, 0, 0, 0, -1);
    InitSteps(p, q, -1, 3, map[], map[], Wait);
    Go(Scene(p, q, -1, 3, map[], map[]), Step(0, Wait));
    InitSteps(p.(pc := WaitScan(0, false)), q, 0, 3, map[], map[], Proceed);
    Go(Scene(p.(pc := WaitScan(0, false)), q, 0, 3, map[], map[]), Step(0, Proceed));
    LooksAt(q);
    ScansOn(q, 2, true);
    FallsAsleep(q);
  }

  /** The child's reparent(), which finds no children. */
  lemma {:induction false} Reparents(p: Slot, st: int, i: nat)
    requires i <= NPROC && p.parent == -1
    requires Reachable(Scene(p, ChildAt(ExitScan(i), Ready, 0, 0, st, -1), 1, 3, map[2 := st], map[]))
    ensures Reachable(Scene(p, ChildAt(ExitWakeParent(0), Ready, 0, 0, st, -1), 1, 3, map[2 := st], map[]))
    decreases NPROC - i
  {
    hide Reachable;
    var q := ChildAt(ExitScan(i), Ready, 0, 0, st, -1);
    ChildSteps(p, q, 1, 3, map[2 := st], map[], Proceed);
    Go(Scene(p, q, 1, 3, map[2 := st], map[]), Step(1, Proceed));
    if i < NPROC {
      Reparents(p, st, i + 1);
    }
  }

  /** The rest of its wakeup(), behind its own slot. */
  lemma {:induction false} WakesOn(p: Slot, st: int, j: nat)
    requires 1 <= j <= NPROC
    requires Reachable(Scene(p, ChildAt(ExitWakeParent(j), Ready, 0, 0, st, -1), 1, 3, map[2 := st], map[]))
    ensures Reachable(Scene(p, ChildAt(ExitDie, Ready, 0, 0, st, -1), 1, 3, map[2 := st], map[]))
    decreases NPROC - j
  {
    hide Reachable;
    var q := ChildAt(ExitWakeParent(j), Ready, 0, 0, st, -1);
    ChildSteps(p, q, 1, 3, map[2 := st], map[], Proceed);
    Go(Scene(p, q, 1, 3, map[2 := st], map[]), Step(1, Proceed));
    if j < NPROC {
      WakesOn(p, st, j + 1);
    }
  }

  lemma Dies(p: Slot, st: int)
    requires Reachable(Scene(p, ChildAt(ExitDie, Ready, 0, 0, st, -1), 1, 3, map[2 := st], map[]))
    ensures Reachable(Scene(p, ChildAt(Gone, Zombie, 0, st, st, -1), -1, 3, map[2 := st], map[]))
  {
    hide Reachable;
    var q, ex: map<nat, int> := ChildAt(ExitDie, Ready, 0, 0, st, -1), map[2 := st];
    ChildSteps(p, q, 1, 3, ex, map[], Proceed);
    Go(Scene(p, q, 1, 3, ex, map[]), Step(1, Proceed));
    q := ChildAt(ExitZombie, Zombie, 0, st, st, 1);
    ChildSteps(p, q, 1, 3, ex, map[], Proceed);
    Go(Scene(p, q, 1, 3, ex, map[]), Step(1, Proceed));
    q := ChildAt(ExitSwitch, Zombie, 0, st, st, 1);
    ChildSteps(p, q, -1, 3, ex, map[], Proceed);
    Go(Scene(p, q, -1, 3, ex, map[]), Step(1, Proceed));
  }

  /** exit(): init is awake and the child a zombie off its stack. */
  lemma Exits(st: int)
    ensures var p, q := InitAt(WaitAsleep, Ready, 0, -1), ChildAt(Gone, Zombie, 0, st, st, -1);
            Reachable(Scene(p, q, -1, 3, map[2 := st], map[]))
  {
    hide Reachable;
    GoesToSleep();
    var p, q := InitAt(WaitAsleep, Sleeping, 0, -1), ChildAt(User, Ready, 0, 0, 0, -1);
    var ex: map<nat, int> := map[2 := st];
    ChildSteps(p, q, -1, 3, map[], map[], Exit(st));
    Go(Scene(p, q, -1, 3, map[], map[]), Step(1, Exit(st)));
    assert (map[])[2 := st] == ex;
    Reparents(p, st, 0);
    q := ChildAt(ExitWakeParent(0), Ready, 0, 0, st, -1);
    ChildSteps(p, q, 1, 3, ex, map[], Proceed);
    Go(Scene(p, q, 1, 3, ex, map[]), Step(1, Proceed));
    p := InitAt(WaitAsleep, Ready, 0, -1);
    WakesOn(p, st, 1);
    Dies(p, st);
  }

  lemma Reaps(st: int)
    requires var p, q := InitAt(WaitScan(0, false), Ready, -1, -1), ChildAt(Gone, Zombie, 0, st, st, -1);
             Reachable(Scene(p, q, 0, 3, map[2 := st], map[]))
    ensures Reachable(Scene(InitAt(WaitDone(2), Ready, -1, -1), Freed(), 0, 3, map[2 := st], map[2 := st]))
  {
    hide Reachable;
    var q, ex: map<nat, int> := ChildAt(Gone, Zombie, 0, st, st, -1), map[2 := st];
    var p := InitAt(WaitScan(0, false), Ready, -1, -1);
    InitSteps(p, q, 0, 3, ex, map[], Proceed);
    Go(Scene(p, q, 0, 3, ex, map[]), Step(0, Proceed));
    p := InitAt(WaitScan(1, false), Ready, -1, -1);
    InitSteps(p, q, 0, 3, ex, map[], Proceed);
    Go(Scene(p, q, 0, 3, ex, map[]), Step(0, Proceed));
    p := InitAt(WaitCheck(1, false), Ready, -1, -1);
    InitSteps(p, q.(lock := 0), 0, 3, ex, map[], Proceed);
    Go(Scene(p, q.(lock := 0), 0, 3, ex, map[]), Step(0, Proceed));
    assert (map[])[2 := st] == ex;
  }

  /** From boot: init forks, waits and sleeps; the child exits with any status and wakes it; and wait
      returns the child's pid, with that status, its slot free again. */
  lemma WholeLife(st: int)
    ensures Reachable(Scene(InitAt(WaitDone(2), Ready, -1, -1), Freed(), 0, 3, map[2 := st], map[2 := st]))
  {
    hide Reachable;
    Exits(st);
    var p, q, ex: map<nat, int> := InitAt(WaitAsleep, Ready, 0, -1), ChildAt(Gone, Zombie, 0, st, st, -1), map[2 := st];
    InitSteps(p, q, -1, 3, ex, map[], Proceed);
    Go(Scene(p, q, -1, 3, ex, map[]), Step(0, Proceed));
    p := InitAt(WaitAgain, Ready, -1, -1);
    InitSteps(p, q, -1, 3, ex, map[], Proceed);
    Go(Scene(p, q, -1, 3, ex, map[]), Step(0, Proceed));
    Reaps(st);
  }
}
