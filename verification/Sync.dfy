/** thread/thread.c and thread/sync.c: the scheduler, semaphores and re-entrant
    locks, as a machine whose steps are the stretches of code that run without a
    thread switch. A thread may be preempted between any two steps, wherever
    interrupts may be on. Two records are kept beside the kernel's own: `owner`,
    who last took a semaphore's unit, and `open`, how many acquisitions of a lock
    a thread has completed and not yet released. */
module Sync {
  import opened Common

  datatype Status = Running | Ready | Blocked | Waiting | Hanging

  /** Where a thread is inside lock_acquire (Reenter .. Owner) or lock_release
      (Release .. Up) of a lock, or asleep in thread_block for another reason. */
  datatype Pc =
    | Outside
    | Asleep
    | Reenter(l: nat)   // holder test said "mine"
    | Down(l: nat)      // in sema_down's loop, before the (next) test of value
    | Took(l: nat)      // value decremented
    | Owner(l: nat)     // holder set, repeat count not yet
    | Release(l: nat)   // holder assertion passed
    | Drop(l: nat)      // last release, holder still set
    | Clear(l: nat)     // holder cleared
    | Up(l: nat)        // repeat count cleared, before sema_up

  datatype Lock = Lock(value: nat, waiters: seq<nat>, holder: Option<nat>, repeats: nat,
                       owner: Option<nat>)

  datatype State = State(cur: nat, idle: nat, status: map<nat, Status>, ready: seq<nat>,
                         pc: map<nat, Pc>, locks: map<nat, Lock>, open: map<(nat, nat), nat>)

  /** Acquisitions of lock `l` that thread `t` has not released yet. */
  function Open(open: map<(nat, nat), nat>, t: nat, l: nat): nat {
    if (t, l) in open then open[(t, l)] else 0
  }

  const NEW_LOCK := Lock(1, [], None, 0, None)

  // ---- invariants ----------------------------------------------------------

  predicate CannotRun(st: Status) { st.Blocked? || st.Waiting? || st.Hanging? }

  predicate Known(s: State) { s.idle in s.status && s.pc.Keys == s.status.Keys }

  /** READY is exactly membership of the ready list, which has no repetitions. */
  ghost predicate ReadyOk(s: State) {
    && NoDup(s.ready)
    && (forall t :: t in s.ready ==> t in s.status)
    && (forall t :: t in s.status ==> (s.status[t].Ready? <==> t in s.ready))
  }

  /** The idle thread takes no lock, waits for nothing and never exits. */
  predicate IdleOk(s: State)
    requires Known(s)
  {
    && (s.pc[s.idle].Outside? || s.pc[s.idle].Asleep?)
    && (s.status[s.idle].Running? || s.status[s.idle].Ready? || s.status[s.idle].Blocked?)
  }

  ghost predicate OneRuns(s: State) {
    s.cur in s.status && forall t :: t in s.status ==> (s.status[t].Running? <==> t == s.cur)
  }

  ghost predicate NoneRuns(s: State) { forall t :: t in s.status ==> !s.status[t].Running? }

  /** A thread that cannot run is in thread_block for another reason or in the
      one waiters list its control point names. */
  ghost predicate SleepersOk(s: State)
    requires Known(s)
  {
    && (forall t :: t in s.status ==> (CannotRun(s.status[t]) <==> s.pc[t].Asleep? || Queued(s, t)))
    && (forall t :: t in s.status && Queued(s, t) ==> s.status[t].Blocked?)
  }

  /** `t` is in the waiters list of the lock it is acquiring. */
  predicate Queued(s: State, t: nat)
    requires t in s.pc
  {
    s.pc[t].Down? && s.pc[t].l in s.locks && t in s.locks[s.pc[t].l].waiters
  }

  ghost predicate WaitersOk(s: State, l: nat)
    requires l in s.locks
  {
    && NoDup(s.locks[l].waiters)
    && forall t :: t in s.locks[l].waiters ==> t in s.pc && s.pc[t] == Down(l)
  }

  /** The thread is between taking the unit of lock `l` and giving it back. */
  predicate Inside(p: Pc, l: nat) {
    || p == Reenter(l) || p == Took(l) || p == Owner(l)
    || p == Release(l) || p == Drop(l) || p == Clear(l) || p == Up(l)
  }

  /** Taken, but not yet or no longer entered as holder. */
  predicate Anonymous(p: Pc, l: nat) { p == Took(l) || p == Clear(l) || p == Up(l) }

  predicate Entering(p: Pc, l: nat) { p == Took(l) || p == Owner(l) }

  predicate Leaving(p: Pc, l: nat) { p == Drop(l) || p == Clear(l) || p == Up(l) }

  /** Unit, holder and repeat count of a lock against its owner's control point
      and its owner's open acquisitions. */
  predicate LockOk(k: Lock, l: nat, pc: map<nat, Pc>, open: map<(nat, nat), nat>) {
    match k.owner
    case None => k.value == 1 && k.holder.None? && k.repeats == 0
    case Some(t) =>
      && k.value == 0 && t in pc
      && k.holder == (if Anonymous(pc[t], l) then None else Some(t))
      && k.repeats == (if pc[t] == Up(l) then 0 else Open(open, t, l))
      && (Open(open, t, l) == 0 <==> Entering(pc[t], l))
      && (Leaving(pc[t], l) ==> Open(open, t, l) == 1)
  }

  ghost predicate RecordsOk(s: State) {
    forall l :: l in s.locks ==> LockOk(s.locks[l], l, s.pc, s.open) && WaitersOk(s, l)
  }

  /** Whoever is inside a lock, or has acquisitions open, is its owner. */
  ghost predicate OwnersOk(s: State) {
    && (forall t: nat, l: nat :: Open(s.open, t, l) > 0 ==> l in s.locks && s.locks[l].owner == Some(t))
    && (forall t, l :: t in s.pc && Inside(s.pc[t], l) ==> l in s.locks && s.locks[l].owner == Some(t))
    && (forall t :: t in s.pc && s.pc[t].Down? ==> s.pc[t].l in s.locks)
    && (forall l :: l in s.locks ==> s.locks[l].owner != Some(s.idle))
  }

  ghost predicate LocksOk(s: State) { RecordsOk(s) && OwnersOk(s) }

  /** `t` has been taken off the queue of `l`, or never was on it, and will test
      the value before it blocks. */
  predicate Retests(s: State, l: nat, t: nat) {
    t in s.pc && s.pc[t] == Down(l) && l in s.locks && t !in s.locks[l].waiters
  }

  /** No lost wakeup: a free lock with waiters has somebody about to test it. */
  ghost predicate WakeOk(s: State) {
    forall l :: l in s.locks && s.locks[l].value == 1 && s.locks[l].waiters != [] ==>
      exists t :: Retests(s, l, t)
  }

  ghost predicate Core(s: State) {
    Known(s) && ReadyOk(s) && IdleOk(s) && SleepersOk(s) && LocksOk(s) && WakeOk(s)
  }

  ghost predicate Inv(s: State) { Core(s) && OneRuns(s) }

  /** The state schedule works on: nobody is running. */
  ghost predicate Mid(s: State) { Core(s) && NoneRuns(s) }

  // ---- thread.c ------------------------------------------------------------

  /** The tail of schedule: wake idle if nobody is ready, then run the front. */
  function Dispatch(s: State): State
    requires s.idle in s.status && s.idle in s.pc
  {
    var s1 := if s.ready == [] then Unblock(s, s.idle) else s;
    s1.(ready := s1.ready[1..], status := s1.status[s1.ready[0] := Running], cur := s1.ready[0])
  }

  function Scheduled(s: State): State
    requires s.idle in s.status && s.idle in s.pc && s.cur in s.status
  {
    if s.status[s.cur].Running? then
      Dispatch(s.(ready := s.ready + [s.cur], status := s.status[s.cur := Ready]))
    else
      Dispatch(s)
  }

  /** thread_unblock: to the front of the ready list. A thread that was asleep
      for another reason returns from thread_block. */
  function Unblock(s: State, t: nat): State
    requires t in s.status && t in s.pc
  {
    s.(ready := [t] + s.ready, status := s.status[t := Ready],
       pc := if s.pc[t].Asleep? then s.pc[t := Outside] else s.pc)
  }

  /** thread_block, from the moment the status is set. */
  function Block(s: State, st: Status): State
    requires s.cur in s.status && s.idle in s.status && s.idle in s.pc
  {
    Dispatch(s.(status := s.status[s.cur := st]))
  }

  /** An empty ready list means idle is BLOCKED, so idle can be woken, and the
      list is not empty afterwards. */
  lemma DispatchInv(s: State)
    requires Mid(s)
    ensures s.ready == [] ==> s.status[s.idle].Blocked? && s.pc[s.idle].Asleep?
    ensures Inv(Dispatch(s))
  {
    hide LocksOk, WakeOk;
    if s.ready == [] {
      assert !s.status[s.idle].Ready?;
      assert s.pc[s.idle].Asleep?;
      UnblockCore(s, s.idle);
      RunFront(Unblock(s, s.idle));
    } else {
      RunFront(s);
    }
  }

  lemma RunFront(s: State)
    requires Mid(s) && s.ready != []
    ensures Inv(s.(ready := s.ready[1..], status := s.status[s.ready[0] := Running], cur := s.ready[0]))
  {
    hide LocksOk, WakeOk, Queued, ReadyOk;
    var n := s.ready[0];
    var s' := s.(ready := s.ready[1..], status := s.status[n := Running], cur := n);
    FrontReady(s);
    SameQueues(s, s');
    SameLocks(s, s');
  }

  /** The ready list without its front, which is now running. */
  lemma FrontReady(s: State)
    requires ReadyOk(s) && s.ready != []
    ensures s.ready[0] in s.status && s.status[s.ready[0]].Ready?
    ensures ReadyOk(s.(ready := s.ready[1..], status := s.status[s.ready[0] := Running], cur := s.ready[0]))
  {
    assert forall t :: t in s.ready <==> t == s.ready[0] || t in s.ready[1..];
  }

  /** Waking a thread that is asleep for another reason. */
  lemma UnblockCore(s: State, t: nat)
    requires Core(s) && t in s.status && s.pc[t].Asleep?
    ensures Core(Unblock(s, t)) && CannotRun(s.status[t]) && t !in s.ready
  {
    hide LocksOk, WakeOk;
    var s' := Unblock(s, t);
    assert CannotRun(s.status[t]) && t !in s.ready;
    assert forall u :: u in s'.ready <==> u == t || u in s.ready;
    assert forall u :: u in s.pc ==> (Queued(s, u) <==> Queued(s', u));
    ParkedLocks(s, s', t);
  }

  /** Locks see a thread only through its control point. */
  lemma SameLocks(s: State, s': State)
    requires LocksOk(s) && WakeOk(s)
    requires s'.pc == s.pc && s'.locks == s.locks && s'.idle == s.idle && s'.open == s.open
    ensures LocksOk(s') && WakeOk(s')
  {
    hide LockOk, Inside;
    assert forall l :: l in s.locks ==> WaitersOk(s, l) && WaitersOk(s', l);
    assert forall l, t :: Retests(s, l, t) <==> Retests(s', l, t);
  }

  /** ... and do not care whether it is outside or asleep. */
  lemma ParkedLocks(s: State, s': State, t: nat)
    requires LocksOk(s) && WakeOk(s) && t in s.pc && (s.pc[t].Outside? || s.pc[t].Asleep?)
    requires s'.locks == s.locks && s'.idle == s.idle && s'.open == s.open
    requires s'.pc == s.pc[t := Outside] || s'.pc == s.pc[t := Asleep]
    ensures LocksOk(s') && WakeOk(s')
  {
    hide Open, LockOk, Inside, OwnersOk;
    forall l | l in s.locks
      ensures LockOk(s'.locks[l], l, s'.pc, s'.open) && WaitersOk(s', l)
    {
      assert LockOk(s.locks[l], l, s.pc, s.open) && WaitersOk(s, l);
      ParkedLock(s.locks[l], l, s.pc, s.open, t, s'.pc[t]);
    }
    assert forall l, u :: Retests(s, l, u) <==> Retests(s', l, u);
    ParkedOwners(s, s', t);
  }

  lemma ParkedOwners(s: State, s': State, t: nat)
    requires OwnersOk(s) && t in s.pc && (s.pc[t].Outside? || s.pc[t].Asleep?)
    requires s'.locks == s.locks && s'.idle == s.idle && s'.open == s.open
    requires s'.pc == s.pc[t := Outside] || s'.pc == s.pc[t := Asleep]
    ensures OwnersOk(s')
  {
    hide Open, Inside;
    forall u, l | u in s'.pc && Inside(s'.pc[u], l)
      ensures l in s.locks && s.locks[l].owner == Some(u)
    {
      ParkedOut(s'.pc[t], l);
      assert Inside(s.pc[u], l);
    }
  }

  lemma ParkedLock(k: Lock, l: nat, pc: map<nat, Pc>, open: map<(nat, nat), nat>, t: nat, p: Pc)
    requires LockOk(k, l, pc, open) && t in pc
    requires pc[t].Outside? || pc[t].Asleep?
    requires p.Outside? || p.Asleep?
    ensures LockOk(k, l, pc[t := p], open)
  {
  }

  lemma ParkedOut(p: Pc, l: nat)
    requires p.Outside? || p.Asleep?
    ensures !Inside(p, l)
  {
  }

  lemma PreemptInv(s: State)
    requires Inv(s)
    ensures s.cur !in s.ready && Inv(Scheduled(s))
  {
    hide LocksOk, WakeOk, SleepersOk;
    PreemptMid(s);
    DispatchInv(s.(ready := s.ready + [s.cur], status := s.status[s.cur := Ready]));
  }

  lemma SameQueues(s: State, s1: State)
    requires s.pc.Keys == s1.pc.Keys && s1.locks == s.locks
    requires forall t :: t in s.pc && s.pc[t].Down? ==> s1.pc[t] == s.pc[t]
    requires forall t :: t in s.pc && s1.pc[t].Down? ==> s1.pc[t] == s.pc[t]
    ensures forall t :: t in s.pc ==> (Queued(s1, t) <==> Queued(s, t))
  {
  }

  lemma SleepMid(s: State, st: Status)
    requires Inv(s) && s.pc[s.cur].Outside? && CannotRun(st) && (s.cur == s.idle ==> st.Blocked?)
    ensures Mid(s.(pc := s.pc[s.cur := Asleep], status := s.status[s.cur := st]))
  {
    hide LocksOk, WakeOk, NoDup, Queued, ReadyOk, SleepersOk;
    var s1 := s.(pc := s.pc[s.cur := Asleep], status := s.status[s.cur := st]);
    SameQueues(s, s1);
    SleepReady(s, s1, st);
    SleepSleepers(s, s1, st);
    ParkedLocks(s, s1, s.cur);
  }

  lemma SleepReady(s: State, s1: State, st: Status)
    requires ReadyOk(s) && OneRuns(s) && CannotRun(st) && s1.ready == s.ready && s1.status == s.status[s.cur := st]
    ensures ReadyOk(s1)
  {
    hide NoDup;
    assert s.cur !in s.ready;
  }

  lemma SleepSleepers(s: State, s1: State, st: Status)
    requires Known(s) && SleepersOk(s) && Known(s1) && s.cur in s.pc && CannotRun(st)
    requires s1 == s.(pc := s.pc[s.cur := Asleep], status := s.status[s.cur := st])
    requires forall t :: t in s.pc ==> (Queued(s1, t) <==> Queued(s, t))
    ensures SleepersOk(s1)
  {
    assert !Queued(s1, s.cur);
    hide Queued;
  }

  /** thread_block for a reason other than a semaphore. */
  lemma SleepInv(s: State, st: Status)
    requires Inv(s) && s.pc[s.cur].Outside? && CannotRun(st) && (s.cur == s.idle ==> st.Blocked?)
    ensures Inv(Block(s.(pc := s.pc[s.cur := Asleep]), st))
  {
    hide Mid, Inv;
    var s1 := s.(pc := s.pc[s.cur := Asleep], status := s.status[s.cur := st]);
    SleepMid(s, st);
    DispatchInv(s1);
  }

  // ---- sync.c --------------------------------------------------------------

  predicate About(p: Pc, l: nat) { p.Outside? || p == Down(l) || Inside(p, l) }

  predicate NotOther(o: Option<nat>, t: nat) { o == None || o == Some(t) }

  /** The running thread moves to `p`, lock `l` becomes `k`, and the thread now
      has `n` open acquisitions of it. */
  function WithLock(s: State, l: nat, k: Lock, p: Pc, n: nat): State {
    s.(pc := s.pc[s.cur := p], locks := s.locks[l := k], open := s.open[(s.cur, l) := n])
  }

  /** A step of the running thread that moves its control point and one lock,
      leaving the queue alone. */
  ghost predicate StepOk(s: State, l: nat, k: Lock, p: Pc, n: nat) {
    && l in s.locks && s.cur in s.pc && s.cur != s.idle
    && About(s.pc[s.cur], l) && About(p, l) && k.waiters == s.locks[l].waiters
    && LockOk(k, l, s.pc[s.cur := p], s.open[(s.cur, l) := n])
    && (Inside(p, l) || n > 0 ==> k.owner == Some(s.cur))
    && (k.owner == s.locks[l].owner || (NotOther(s.locks[l].owner, s.cur) && NotOther(k.owner, s.cur)))
    && (k.value == 1 && k.waiters != [] ==> p == Down(l) || (s.locks[l].value == 1 && s.pc[s.cur] != Down(l)))
  }

  lemma LockStepInv(s: State, l: nat, k: Lock, p: Pc, n: nat)
    requires Inv(s) && StepOk(s, l, k, p, n)
    ensures Inv(WithLock(s, l, k, p, n))
  {
    hide LockOk, Inside, About, LocksOk, WakeOk;
    var s' := WithLock(s, l, k, p, n);
    NotQueued(s);
    LockStepLocks(s, l, k, p, n);
    LockStepWake(s, l, k, p, n);
    AboutLive(s.pc[s.cur], l);
    AboutLive(p, l);
    assert forall t :: t in s.pc ==> (Queued(s, t) <==> Queued(s', t));
  }

  lemma AboutLive(p: Pc, l: nat)
    requires About(p, l)
    ensures !p.Asleep? && (p.Down? ==> p.l == l)
  {
  }

  lemma NotQueued(s: State)
    requires Known(s) && OneRuns(s) && SleepersOk(s) && LocksOk(s)
    ensures forall l :: l in s.locks ==> s.cur !in s.locks[l].waiters
  {
    hide LockOk, Inside, Open;
    assert !Queued(s, s.cur);
    assert forall l :: l in s.locks ==> WaitersOk(s, l);
  }

  lemma LockStepLocks(s: State, l: nat, k: Lock, p: Pc, n: nat)
    requires LocksOk(s) && StepOk(s, l, k, p, n)
    requires forall m :: m in s.locks ==> s.cur !in s.locks[m].waiters
    ensures LocksOk(WithLock(s, l, k, p, n))
  {
    hide LockOk, Inside, About, Open, OwnersOk;
    var s' := WithLock(s, l, k, p, n);
    forall m | m in s'.locks
      ensures LockOk(s'.locks[m], m, s'.pc, s'.open) && WaitersOk(s', m)
    {
      assert LockOk(s.locks[m], m, s.pc, s.open) && WaitersOk(s, m);
      if m != l { OtherLock(s.locks[m], m, s.pc, s.open, s.cur, l, p, n); }
    }
    LockStepOwners(s, l, k, p, n);
  }

  lemma LockStepOwners(s: State, l: nat, k: Lock, p: Pc, n: nat)
    requires OwnersOk(s) && StepOk(s, l, k, p, n)
    ensures OwnersOk(WithLock(s, l, k, p, n))
  {
    hide LockOk, Inside, About;
    var s' := WithLock(s, l, k, p, n);
    AboutLive(p, l);
    forall t, m | t in s'.pc && Inside(s'.pc[t], m)
      ensures m in s'.locks && s'.locks[m].owner == Some(t)
    {
      if t == s.cur { InsideOne(p, l, m); } else { assert Inside(s.pc[t], m); }
    }
    forall t: nat, m: nat | Open(s'.open, t, m) > 0
      ensures m in s'.locks && s'.locks[m].owner == Some(t)
    {
      if t != s.cur || m != l { assert Open(s.open, t, m) > 0; }
    }
    assert k.owner != Some(s.idle) by { assert s.locks[l].owner != Some(s.idle); }
  }

  lemma InsideOne(p: Pc, l: nat, m: nat)
    requires About(p, l) && Inside(p, m)
    ensures m == l
  {
  }

  lemma OtherLock(k: Lock, m: nat, pc: map<nat, Pc>, open: map<(nat, nat), nat>, t: nat, l: nat, p: Pc, n: nat)
    requires LockOk(k, m, pc, open) && t in pc && m != l && About(pc[t], l) && About(p, l)
    ensures LockOk(k, m, pc[t := p], open[(t, l) := n])
  {
    assert forall u :: Open(open[(t, l) := n], u, m) == Open(open, u, m);
  }

  lemma LockStepWake(s: State, l: nat, k: Lock, p: Pc, n: nat)
    requires WakeOk(s) && StepOk(s, l, k, p, n) && s.cur !in k.waiters
    ensures WakeOk(WithLock(s, l, k, p, n))
  {
    hide LockOk;
    var s' := WithLock(s, l, k, p, n);
    forall m | m in s'.locks && s'.locks[m].value == 1 && s'.locks[m].waiters != []
      ensures exists t :: Retests(s', m, t)
    {
      if m == l && p == Down(l) {
        assert Retests(s', m, s.cur);
      } else {
        var t :| Retests(s, m, t);
        assert Retests(s', m, t);
      }
    }
  }

  /** sema_down with the value at 0: join the queue and block. */
  function Enqueue(s: State, l: nat): State
    requires l in s.locks && s.cur in s.status && s.idle in s.status && s.idle in s.pc
  {
    Block(s.(locks := s.locks[l := s.locks[l].(waiters := s.locks[l].waiters + [s.cur])]), Blocked)
  }

  lemma EnqueueMid(s: State, l: nat)
    requires Inv(s) && l in s.locks && s.pc[s.cur] == Down(l) && s.locks[l].value == 0
    ensures s.cur !in s.locks[l].waiters
    ensures Mid(s.(locks := s.locks[l := s.locks[l].(waiters := s.locks[l].waiters + [s.cur])],
                   status := s.status[s.cur := Blocked]))
  {
    hide RecordsOk, OwnersOk, WakeOk, ReadyOk;
    NotQueued(s);
    var s1 := s.(locks := s.locks[l := s.locks[l].(waiters := s.locks[l].waiters + [s.cur])],
                 status := s.status[s.cur := Blocked]);
    EnqueueRecords(s, l);
    assert forall t :: t in s.pc && t != s.cur ==> (Queued(s1, t) <==> Queued(s, t));
    assert Queued(s1, s.cur);
    EnqueueRest(s, l);
  }

  lemma EnqueueRecords(s: State, l: nat)
    requires Inv(s) && l in s.locks && s.pc[s.cur] == Down(l) && s.cur !in s.locks[l].waiters
    ensures RecordsOk(s.(locks := s.locks[l := s.locks[l].(waiters := s.locks[l].waiters + [s.cur])],
                         status := s.status[s.cur := Blocked]))
  {
    hide LockOk, OwnersOk, WakeOk, ReadyOk, SleepersOk;
    var s1 := s.(locks := s.locks[l := s.locks[l].(waiters := s.locks[l].waiters + [s.cur])],
                 status := s.status[s.cur := Blocked]);
    forall m | m in s1.locks
      ensures LockOk(s1.locks[m], m, s1.pc, s1.open) && WaitersOk(s1, m)
    {
      assert LockOk(s.locks[m], m, s.pc, s.open) && WaitersOk(s, m);
      SameRecord(s.locks[l], s1.locks[l], l, s.pc, s.open);
    }
  }

  lemma SameRecord(k: Lock, k': Lock, l: nat, pc: map<nat, Pc>, open: map<(nat, nat), nat>)
    requires k' == k.(waiters := k'.waiters)
    ensures LockOk(k, l, pc, open) <==> LockOk(k', l, pc, open)
  {
  }

  lemma EnqueueRest(s: State, l: nat)
    requires Inv(s) && l in s.locks && s.pc[s.cur] == Down(l) && s.locks[l].value == 0
    ensures var s1 := s.(locks := s.locks[l := s.locks[l].(waiters := s.locks[l].waiters + [s.cur])],
                         status := s.status[s.cur := Blocked]);
            OwnersOk(s1) && WakeOk(s1) && ReadyOk(s1)
  {
    hide RecordsOk, Inside, Open, SleepersOk;
    var s1 := s.(locks := s.locks[l := s.locks[l].(waiters := s.locks[l].waiters + [s.cur])],
                 status := s.status[s.cur := Blocked]);
    forall m | m in s1.locks && s1.locks[m].value == 1 && s1.locks[m].waiters != []
      ensures exists t :: Retests(s1, m, t)
    {
      var t :| Retests(s, m, t);
      assert Retests(s1, m, t);
    }
  }

  /** sema_up at the end of lock_release. */
  function UpLock(s: State, l: nat): State
    requires l in s.locks && s.cur in s.pc
    requires s.locks[l].waiters != [] ==> s.locks[l].waiters[0] in s.status && s.locks[l].waiters[0] in s.pc
  {
    var k := s.locks[l];
    var s1 := if k.waiters != [] then Unblock(s, k.waiters[0]) else s;
    WithLock(s1, l, Lock(k.value + 1, if k.waiters != [] then k.waiters[1..] else [], k.holder, k.repeats, None),
             Outside, 0)
  }

  lemma UpInv(s: State, l: nat)
    requires Inv(s) && l in s.locks && s.pc[s.cur] == Up(l)
    ensures s.locks[l].value == 0 && s.cur != s.idle
    ensures s.locks[l].waiters != [] ==> WokenOk(s, l)
    ensures Inv(UpLock(s, l))
  {
    hide RecordsOk, OwnersOk, WakeOk, ReadyOk, SleepersOk;
    InsideOrDown(s);
    var k := s.locks[l];
    var k' := Lock(1, k.waiters, k.holder, k.repeats, None);
    if k.waiters == [] {
      LockStepInv(s, l, k', Outside, 0);
    } else {
      UpWaiterFacts(s, l);
      UpWaiterInv(s, l);
    }
  }

  /** The thread sema_up takes off the queue is blocked and not ready. */
  predicate WokenOk(s: State, l: nat)
    requires l in s.locks && s.locks[l].waiters != []
  {
    var w := s.locks[l].waiters[0];
    w in s.status && w in s.pc && s.status[w].Blocked? && w !in s.ready && w != s.cur && s.pc[w] == Down(l)
  }

  lemma UpWaiterFacts(s: State, l: nat)
    requires Inv(s) && l in s.locks && s.locks[l].waiters != []
    ensures WokenOk(s, l)
  {
    hide LockOk, Inside, OwnersOk, WakeOk;
    var w := s.locks[l].waiters[0];
    assert WaitersOk(s, l);
    assert Queued(s, w);
  }

  lemma UpWaiterInv(s: State, l: nat)
    requires Inv(s) && l in s.locks && s.pc[s.cur] == Up(l) && s.locks[l].waiters != [] && WokenOk(s, l)
    requires s.cur != s.idle && s.locks[l].owner == Some(s.cur)
    ensures Inv(UpLock(s, l))
  {
    hide LockOk, Inside, OwnersOk, RecordsOk, WakeOk, ReadyOk, Queued;
    UpRecords(s, l);
    UpOwners(s, l);
    UpWake(s, l);
    UpReady(s, l);
    UpQueued(s, l);
  }

  lemma UpReady(s: State, l: nat)
    requires Inv(s) && l in s.locks && s.pc[s.cur] == Up(l) && s.locks[l].waiters != [] && WokenOk(s, l)
    ensures ReadyOk(UpLock(s, l))
  {
    hide LockOk, Inside, OwnersOk, RecordsOk, WakeOk, NoDup, SleepersOk, IdleOk;
    var w := s.locks[l].waiters[0];
    var s' := UpLock(s, l);
    assert forall t :: t in s'.ready <==> t == w || t in s.ready;
    assert NoDup(s'.ready) by { ConsNoDup(w, s.ready); }
  }

  lemma ConsNoDup(x: nat, r: seq<nat>)
    requires NoDup(r) && x !in r
    ensures NoDup([x] + r)
  {
  }

  lemma SnocNoDup(r: seq<nat>, x: nat)
    requires NoDup(r) && x !in r
    ensures NoDup(r + [x])
  {
  }

  lemma UpQueued(s: State, l: nat)
    requires Inv(s) && l in s.locks && s.pc[s.cur] == Up(l) && s.locks[l].waiters != [] && WokenOk(s, l)
    ensures forall t :: t in s.pc ==> (Queued(UpLock(s, l), t) <==> Queued(s, t) && t != s.locks[l].waiters[0])
  {
    hide LockOk, Inside, OwnersOk, WakeOk, ReadyOk;
    var ws := s.locks[l].waiters;
    assert WaitersOk(s, l);
    TailMembers(ws);
  }

  lemma TailMembers(ws: seq<nat>)
    requires ws != [] && NoDup(ws)
    ensures forall t :: t in ws[1..] <==> t in ws && t != ws[0]
  {
    forall t
      ensures t in ws[1..] <==> t in ws && t != ws[0]
    {
      assert ws == [ws[0]] + ws[1..];
      if t in ws[1..] {
        var i :| 0 <= i < |ws[1..]| && ws[1..][i] == t;
        assert ws[i + 1] == t;
      }
    }
  }

  lemma UpRecords(s: State, l: nat)
    requires Inv(s) && l in s.locks && s.pc[s.cur] == Up(l) && s.locks[l].waiters != [] && WokenOk(s, l)
    requires s.locks[l].owner == Some(s.cur)
    ensures RecordsOk(UpLock(s, l))
  {
    hide OwnersOk, WakeOk, ReadyOk, SleepersOk;
    NotQueued(s);
    var s' := UpLock(s, l);
    forall m | m in s'.locks
      ensures LockOk(s'.locks[m], m, s'.pc, s'.open) && WaitersOk(s', m)
    {
      assert LockOk(s.locks[m], m, s.pc, s.open) && WaitersOk(s, m);
      if m != l {
        assert About(s.pc[s.cur], l);
        OtherLock(s.locks[m], m, s.pc, s.open, s.cur, l, Outside, 0);
      }
    }
  }

  lemma UpOwners(s: State, l: nat)
    requires Inv(s) && l in s.locks && s.pc[s.cur] == Up(l) && s.locks[l].waiters != [] && WokenOk(s, l)
    requires s.locks[l].owner == Some(s.cur)
    ensures OwnersOk(UpLock(s, l))
  {
    hide RecordsOk, WakeOk, ReadyOk, SleepersOk, Inside;
    var s' := UpLock(s, l);
    forall t, m | t in s'.pc && Inside(s'.pc[t], m)
      ensures m in s'.locks && s'.locks[m].owner == Some(t)
    {
      ParkedOut(Outside, m);
      assert Inside(s.pc[t], m);
    }
    forall t: nat, m: nat | Open(s'.open, t, m) > 0
      ensures m in s'.locks && s'.locks[m].owner == Some(t)
    {
      assert Open(s.open, t, m) > 0;
    }
  }

  /** The woken thread is the one that will test the freed lock. */
  lemma UpWake(s: State, l: nat)
    requires Inv(s) && l in s.locks && s.pc[s.cur] == Up(l) && s.locks[l].waiters != [] && WokenOk(s, l)
    ensures WakeOk(UpLock(s, l))
  {
    hide LockOk, Inside, OwnersOk, ReadyOk, SleepersOk;
    var s' := UpLock(s, l);
    var w := s.locks[l].waiters[0];
    assert WaitersOk(s, l);
    assert Retests(s', l, w);
    forall m | m in s'.locks && s'.locks[m].value == 1 && s'.locks[m].waiters != [] && m != l
      ensures exists t :: Retests(s', m, t)
    {
      var t :| Retests(s, m, t);
      assert Retests(s', m, t);
    }
  }

  // ---- runs ----------------------------------------------------------------

  /** What can happen next: a call or a further step of the running thread, a
      timer interrupt, or thread creation and removal. */
  datatype Event =
    | Acquire(l: nat)       // lock_acquire, up to the holder test
    | ReleaseOf(l: nat)     // lock_release, up to the holder assertion
    | Continue              // next step inside either
    | Preempt               // timer interrupt, or thread_yield
    | Sleep(st: Status)     // thread_block
    | Wake(t: nat)          // thread_unblock
    | Start(t: nat)         // thread_start, fork
    | Reap(t: nat)          // thread_exit of another, sleeping thread
    | Exit                  // thread_exit of the running thread
    | NewLock(l: nat)       // lock_init

  function After(s: State): State
    requires s.cur in s.pc && s.cur in s.status && s.idle in s.status && s.idle in s.pc
    requires !s.pc[s.cur].Outside? && !s.pc[s.cur].Asleep? && s.pc[s.cur].l in s.locks
    requires var k := s.locks[s.pc[s.cur].l];
             k.waiters != [] ==> k.waiters[0] in s.status && k.waiters[0] in s.pc
  {
    var l, t := s.pc[s.cur].l, s.cur;
    var k, n := s.locks[l], Open(s.open, t, l);
    match s.pc[t]
    case Reenter(_) => WithLock(s, l, k.(repeats := k.repeats + 1), Outside, n + 1)
    case Down(_) =>
      if k.value == 0 then Enqueue(s, l)
      else WithLock(s, l, k.(value := k.value - 1, owner := Some(t)), Took(l), n)
    case Took(_) => WithLock(s, l, k.(holder := Some(t)), Owner(l), n)
    case Owner(_) => WithLock(s, l, k.(repeats := 1), Outside, n + 1)
    case Release(_) =>
      if k.repeats > 1 then WithLock(s, l, k.(repeats := k.repeats - 1), Outside, if n == 0 then 0 else n - 1)
      else WithLock(s, l, k, Drop(l), n)
    case Drop(_) => WithLock(s, l, k.(holder := None), Clear(l), n)
    case Clear(_) => WithLock(s, l, k.(repeats := 0), Up(l), n)
    case Up(_) => UpLock(s, l)
  }

  /** The assertions of sync.c and thread.c at the running thread's next step. */
  predicate AssertsHold(s: State)
    requires s.cur in s.pc && !s.pc[s.cur].Outside? && !s.pc[s.cur].Asleep? && s.pc[s.cur].l in s.locks
  {
    var l := s.pc[s.cur].l;
    var k := s.locks[l];
    match s.pc[s.cur]
    case Down(_) => if k.value == 0 then s.cur !in k.waiters else k.value == 1
    case Owner(_) => k.repeats == 0
    case Release(_) => k.repeats >= 1
    case Up(_) => k.value == 0 && (k.waiters != [] ==> WokenOk(s, l))
    case _ => true
  }

  lemma ContinueInv(s: State)
    requires Inv(s) && !s.pc[s.cur].Outside? && !s.pc[s.cur].Asleep?
    ensures s.pc[s.cur].l in s.locks && AssertsHold(s)
    ensures var k := s.locks[s.pc[s.cur].l];
            k.waiters != [] ==> k.waiters[0] in s.status && k.waiters[0] in s.pc
    ensures Inv(After(s))
  {
    var l, t := s.pc[s.cur].l, s.cur;
    InsideOrDown(s);
    var k, n := s.locks[l], Open(s.open, t, l);
    assert LockOk(k, l, s.pc, s.open);
    if k.waiters != [] { UpWaiterFacts(s, l); }
    if s.pc[t].Up? {
      UpInv(s, l);
    } else if s.pc[t].Down? && k.value == 0 {
      EnqueueMid(s, l);
      DispatchInv(s.(locks := s.locks[l := k.(waiters := k.waiters + [t])], status := s.status[t := Blocked]));
    } else {
      PlainStep(s);
    }
  }

  lemma InsideOrDown(s: State)
    requires Inv(s) && !s.pc[s.cur].Outside? && !s.pc[s.cur].Asleep?
    ensures var p := s.pc[s.cur];
            && p.l in s.locks && LockOk(s.locks[p.l], p.l, s.pc, s.open)
            && (Inside(p, p.l) <==> !p.Down?) && (!p.Down? ==> s.locks[p.l].owner == Some(s.cur))
    ensures s.cur != s.idle
  {
    hide LockOk, WakeOk, ReadyOk, SleepersOk;
    var p := s.pc[s.cur];
    assert p.Down? || Inside(p, p.l);
  }

  lemma PlainStep(s: State)
    requires Inv(s) && !s.pc[s.cur].Outside? && !s.pc[s.cur].Asleep? && !s.pc[s.cur].Up?
    requires s.pc[s.cur].l in s.locks
    requires s.pc[s.cur].Down? ==> s.locks[s.pc[s.cur].l].value != 0
    requires var k := s.locks[s.pc[s.cur].l];
             k.waiters != [] ==> k.waiters[0] in s.status && k.waiters[0] in s.pc
    ensures AssertsHold(s) && Inv(After(s))
  {
    hide RecordsOk, OwnersOk, WakeOk, ReadyOk, SleepersOk, LockOk, StepOk;
    var l, t := s.pc[s.cur].l, s.cur;
    var k, n := s.locks[l], Open(s.open, t, l);
    assert About(s.pc[t], l);
    if s.pc[t].Down? { TakeStep(s, l); }
    AcquireSteps(s, l);
    ReleaseSteps(s, l);
  }

  lemma AcquireSteps(s: State, l: nat)
    requires Inv(s) && l in s.locks && About(s.pc[s.cur], l)
    ensures var k, n := s.locks[l], Open(s.open, s.cur, l);
            && (s.pc[s.cur] == Reenter(l) ==> Inv(WithLock(s, l, k.(repeats := k.repeats + 1), Outside, n + 1)))
            && (s.pc[s.cur] == Took(l) ==> Inv(WithLock(s, l, k.(holder := Some(s.cur)), Owner(l), n)))
            && (s.pc[s.cur] == Owner(l) ==> k.repeats == 0 && Inv(WithLock(s, l, k.(repeats := 1), Outside, n + 1)))
  {
    hide RecordsOk, OwnersOk, WakeOk, ReadyOk, SleepersOk;
    var k, n := s.locks[l], Open(s.open, s.cur, l);
    if s.pc[s.cur] == Reenter(l) {
      InsideOrDown(s);
      LockStepInv(s, l, k.(repeats := k.repeats + 1), Outside, n + 1);
    } else if s.pc[s.cur] == Took(l) {
      InsideOrDown(s);
      LockStepInv(s, l, k.(holder := Some(s.cur)), Owner(l), n);
    } else if s.pc[s.cur] == Owner(l) {
      InsideOrDown(s);
      LockStepInv(s, l, k.(repeats := 1), Outside, n + 1);
    }
  }

  /** The unit is taken only while nobody has it. */
  lemma TakeStep(s: State, l: nat)
    requires Inv(s) && l in s.locks && s.pc[s.cur] == Down(l) && s.locks[l].value != 0
    ensures var k, n := s.locks[l], Open(s.open, s.cur, l);
            && k.value == 1 && k.owner == None
            && Inv(WithLock(s, l, k.(value := k.value - 1, owner := Some(s.cur)), Took(l), n))
  {
    hide RecordsOk, WakeOk, ReadyOk, SleepersOk;
    var k, n := s.locks[l], Open(s.open, s.cur, l);
    InsideOrDown(s);
    assert k.owner == None && n == 0;
    LockStepInv(s, l, k.(value := k.value - 1, owner := Some(s.cur)), Took(l), n);
  }

  lemma ReleaseSteps(s: State, l: nat)
    requires Inv(s) && l in s.locks && About(s.pc[s.cur], l)
    ensures var k, n := s.locks[l], Open(s.open, s.cur, l);
            && (s.pc[s.cur] == Release(l) ==> k.repeats == n >= 1 && Inv(
                  if k.repeats > 1 then WithLock(s, l, k.(repeats := k.repeats - 1), Outside, n - 1)
                  else WithLock(s, l, k, Drop(l), n)))
            && (s.pc[s.cur] == Drop(l) ==> Inv(WithLock(s, l, k.(holder := None), Clear(l), n)))
            && (s.pc[s.cur] == Clear(l) ==> Inv(WithLock(s, l, k.(repeats := 0), Up(l), n)))
  {
    hide RecordsOk, OwnersOk, WakeOk, ReadyOk, SleepersOk;
    var k, n := s.locks[l], Open(s.open, s.cur, l);
    if s.pc[s.cur] == Release(l) {
      InsideOrDown(s);
      if k.repeats > 1 {
        LockStepInv(s, l, k.(repeats := k.repeats - 1), Outside, n - 1);
      } else {
        LockStepInv(s, l, k, Drop(l), n);
      }
    } else if s.pc[s.cur] == Drop(l) {
      InsideOrDown(s);
      LockStepInv(s, l, k.(holder := None), Clear(l), n);
    } else if s.pc[s.cur] == Clear(l) {
      InsideOrDown(s);
      LockStepInv(s, l, k.(repeats := 0), Up(l), n);
    }
  }

  /** lock_acquire tests `holder` without disabling interrupts, and the test is
      right all the same: it says "mine" exactly when the caller has the lock. */
  lemma HolderTestSound(s: State, l: nat)
    requires Inv(s) && l in s.locks && s.pc[s.cur].Outside?
    ensures s.locks[l].holder == Some(s.cur) <==> Open(s.open, s.cur, l) > 0
  {
    hide WakeOk, ReadyOk, SleepersOk, WaitersOk;
    assert LockOk(s.locks[l], l, s.pc, s.open);
  }

  lemma AcquireInv(s: State, l: nat)
    requires Inv(s) && l in s.locks && s.pc[s.cur].Outside? && s.cur != s.idle
    ensures Inv(WithLock(s, l, s.locks[l], if s.locks[l].holder == Some(s.cur) then Reenter(l) else Down(l),
                         Open(s.open, s.cur, l)))
  {
    hide WakeOk, ReadyOk, SleepersOk, WaitersOk;
    assert LockOk(s.locks[l], l, s.pc, s.open);
    HolderTestSound(s, l);
    LockStepInv(s, l, s.locks[l], if s.locks[l].holder == Some(s.cur) then Reenter(l) else Down(l),
                Open(s.open, s.cur, l));
  }

  lemma ReleaseInv(s: State, l: nat)
    requires Inv(s) && s.pc[s.cur].Outside? && Open(s.open, s.cur, l) > 0
    ensures l in s.locks && s.locks[l].holder == Some(s.cur)
    ensures Inv(WithLock(s, l, s.locks[l], Release(l), Open(s.open, s.cur, l)))
  {
    hide WakeOk, ReadyOk, SleepersOk, WaitersOk;
    assert l in s.locks;
    assert LockOk(s.locks[l], l, s.pc, s.open);
    HolderTestSound(s, l);
    LockStepInv(s, l, s.locks[l], Release(l), Open(s.open, s.cur, l));
  }

  /** A thread that has no lock and waits in no queue can be removed. */
  function Without(s: State, t: nat): State { s.(status := s.status - {t}, pc := s.pc - {t}) }

  lemma WithoutCore(s: State, t: nat)
    requires Core(s) && t in s.status && t != s.idle && (s.pc[t].Outside? || s.pc[t].Asleep?) && t !in s.ready
    requires forall l :: Open(s.open, t, l) == 0
    ensures Core(Without(s, t))
  {
    hide LockOk, Inside, WakeOk;
    var s' := Without(s, t);
    WithoutLocks(s, t);
    assert forall u :: u in s'.pc ==> (Queued(s', u) <==> Queued(s, u));
  }

  lemma WithoutLock(s: State, t: nat, l: nat)
    requires LocksOk(s) && t in s.pc && t != s.idle && (s.pc[t].Outside? || s.pc[t].Asleep?) && l in s.locks
    requires Open(s.open, t, l) == 0
    ensures LockOk(Without(s, t).locks[l], l, Without(s, t).pc, Without(s, t).open) && WaitersOk(Without(s, t), l)
  {
    assert LockOk(s.locks[l], l, s.pc, s.open) && WaitersOk(s, l);
  }

  lemma WithoutLocks(s: State, t: nat)
    requires LocksOk(s) && WakeOk(s) && t in s.pc && t != s.idle && (s.pc[t].Outside? || s.pc[t].Asleep?)
    requires forall l :: Open(s.open, t, l) == 0
    ensures LocksOk(Without(s, t)) && WakeOk(Without(s, t))
  {
    hide Inside;
    var s' := Without(s, t);
    forall l | l in s.locks
      ensures LockOk(s'.locks[l], l, s'.pc, s'.open) && WaitersOk(s', l)
    {
      WithoutLock(s, t, l);
    }
    assert forall l, u :: Retests(s', l, u) <==> Retests(s, l, u);
    assert forall u, l :: u in s'.pc && Inside(s'.pc[u], l) ==> u in s.pc && Inside(s.pc[u], l);
  }

  lemma StartInv(s: State, t: nat)
    requires Inv(s) && t !in s.status && forall l :: Open(s.open, t, l) == 0
    ensures Inv(s.(status := s.status[t := Ready], ready := s.ready + [t], pc := s.pc[t := Outside]))
  {
    hide LocksOk, WakeOk, ReadyOk, Queued;
    StartLocks(s, t);
    StartReady(s, t);
    StartQueues(s, t);
    assert s.cur != t;
  }

  lemma StartQueues(s: State, t: nat)
    requires t !in s.pc
    ensures var s' := s.(status := s.status[t := Ready], ready := s.ready + [t], pc := s.pc[t := Outside]);
      !Queued(s', t) && forall u :: u in s.pc ==> (Queued(s', u) <==> Queued(s, u))
  {
  }

  lemma StartReady(s: State, t: nat)
    requires ReadyOk(s) && t !in s.status
    ensures ReadyOk(s.(status := s.status[t := Ready], ready := s.ready + [t], pc := s.pc[t := Outside]))
  {
    hide NoDup;
    assert t !in s.ready;
    SnocNoDup(s.ready, t);
  }

  lemma StartLocks(s: State, t: nat)
    requires LocksOk(s) && WakeOk(s) && t !in s.pc
    ensures var s' := s.(status := s.status[t := Ready], ready := s.ready + [t], pc := s.pc[t := Outside]);
            LocksOk(s') && WakeOk(s')
  {
    hide Inside, Open;
    var s' := s.(status := s.status[t := Ready], ready := s.ready + [t], pc := s.pc[t := Outside]);
    forall l | l in s.locks
      ensures LockOk(s'.locks[l], l, s'.pc, s'.open) && WaitersOk(s', l)
    {
      assert LockOk(s.locks[l], l, s.pc, s.open) && WaitersOk(s, l);
    }
    forall l, u | Retests(s, l, u)
      ensures Retests(s', l, u)
    {
    }
    forall u, l | u in s'.pc && Inside(s'.pc[u], l)
      ensures l in s.locks && s.locks[l].owner == Some(u)
    {
      ParkedOut(Outside, l);
      assert u in s.pc && Inside(s.pc[u], l);
    }
  }

  lemma NewLockInv(s: State, l: nat)
    requires Inv(s) && l !in s.locks
    ensures Inv(s.(locks := s.locks[l := NEW_LOCK]))
  {
    hide RecordsOk, OwnersOk, WakeOk;
    var s' := s.(locks := s.locks[l := NEW_LOCK]);
    NewLockLocks(s, l);
    assert forall u :: u in s.pc ==> (Queued(s', u) <==> Queued(s, u));
  }

  lemma NewLockLocks(s: State, l: nat)
    requires LocksOk(s) && WakeOk(s) && l !in s.locks
    ensures LocksOk(s.(locks := s.locks[l := NEW_LOCK])) && WakeOk(s.(locks := s.locks[l := NEW_LOCK]))
  {
    hide Inside, Open, WakeOk, OwnersOk;
    var s' := s.(locks := s.locks[l := NEW_LOCK]);
    NewLockOwners(s, l);
    forall m | m in s'.locks
      ensures LockOk(s'.locks[m], m, s'.pc, s'.open) && WaitersOk(s', m)
    {
      assert m in s.locks ==> LockOk(s.locks[m], m, s.pc, s.open) && WaitersOk(s, m);
    }
    NewLockWake(s, l);
  }

  lemma NewLockOwners(s: State, l: nat)
    requires OwnersOk(s) && l !in s.locks
    ensures OwnersOk(s.(locks := s.locks[l := NEW_LOCK]))
  {
    hide Inside, Open;
  }

  lemma NewLockWake(s: State, l: nat)
    requires WakeOk(s) && l !in s.locks
    ensures WakeOk(s.(locks := s.locks[l := NEW_LOCK]))
  {
    var s' := s.(locks := s.locks[l := NEW_LOCK]);
    forall m | m in s'.locks && s'.locks[m].value == 1 && s'.locks[m].waiters != []
      ensures exists t :: Retests(s', m, t)
    {
      var t :| Retests(s, m, t);
      assert Retests(s', m, t);
    }
  }

  /** `e` can happen in `s`. The conditions are what callers owe: releasing only
      what was acquired, exiting with no lock, waking only sleepers. */
  ghost predicate Enabled(s: State, e: Event)
    requires Inv(s)
  {
    match e
    case Acquire(l) => s.pc[s.cur].Outside? && s.cur != s.idle && l in s.locks
    case ReleaseOf(l) => s.pc[s.cur].Outside? && Open(s.open, s.cur, l) > 0
    case Continue => !s.pc[s.cur].Outside? && !s.pc[s.cur].Asleep?
    case Preempt => true
    case Sleep(st) => s.pc[s.cur].Outside? && CannotRun(st) && (s.cur == s.idle ==> st.Blocked?)
    case Wake(t) => t in s.status && t != s.idle && s.pc[t].Asleep?
    case Start(t) => t !in s.status && forall l :: Open(s.open, t, l) == 0
    case Reap(t) => t in s.status && t != s.idle && s.pc[t].Asleep? && forall l :: Open(s.open, t, l) == 0
    case Exit => s.pc[s.cur].Outside? && s.cur != s.idle && forall l :: Open(s.open, s.cur, l) == 0
    case NewLock(l) => l !in s.locks
  }

  ghost function Apply(s: State, e: Event): State
    requires Inv(s) && Enabled(s, e)
  {
    match e
    case Acquire(l) =>
      WithLock(s, l, s.locks[l], if s.locks[l].holder == Some(s.cur) then Reenter(l) else Down(l),
               Open(s.open, s.cur, l))
    case ReleaseOf(l) => ReleaseInv(s, l); WithLock(s, l, s.locks[l], Release(l), Open(s.open, s.cur, l))
    case Continue => ContinueInv(s); After(s)
    case Preempt => Scheduled(s)
    case Sleep(st) => Block(s.(pc := s.pc[s.cur := Asleep]), st)
    case Wake(t) => Unblock(s, t)
    case Start(t) => s.(status := s.status[t := Ready], ready := s.ready + [t], pc := s.pc[t := Outside])
    case Reap(t) => Without(s, t)
    case Exit => Dispatch(Without(s, s.cur))
    case NewLock(l) => s.(locks := s.locks[l := NEW_LOCK])
  }

  /** Every step keeps the invariant. */
  lemma StepInv(s: State, e: Event)
    requires Inv(s) && Enabled(s, e)
    ensures Inv(Apply(s, e))
  {
    hide LocksOk, WakeOk, Open;
    match e
    case Acquire(l) => AcquireInv(s, l);
    case ReleaseOf(l) => ReleaseInv(s, l);
    case Continue => ContinueInv(s);
    case Preempt => PreemptInv(s);
    case Sleep(st) => SleepInv(s, st);
    case Wake(t) => UnblockCore(s, t);
    case Start(t) => StartInv(s, t);
    case Reap(t) => UnblockCore(s, t); WithoutCore(s, t);
    case Exit => WithoutCore(s, s.cur); DispatchInv(Without(s, s.cur));
    case NewLock(l) => NewLockInv(s, l);
  }

  /** The events `es` can happen one after the other from `s`. */
  ghost predicate CanRun(s: State, es: seq<Event>)
    requires Inv(s)
    decreases |es|
  {
    es == [] || (Enabled(s, es[0]) && (StepInv(s, es[0]); CanRun(Apply(s, es[0]), es[1..])))
  }

  ghost function RunFrom(s: State, es: seq<Event>): State
    requires Inv(s) && CanRun(s, es)
    decreases |es|
  {
    if es == [] then s else (StepInv(s, es[0]); RunFrom(Apply(s, es[0]), es[1..]))
  }

  /** So does every run. */
  lemma {:induction false} RunInv(s: State, es: seq<Event>)
    requires Inv(s) && CanRun(s, es)
    ensures Inv(RunFrom(s, es))
    decreases |es|
  {
    hide Inv, Enabled, Apply;
    if es != [] {
      StepInv(s, es[0]);
      RunInv(Apply(s, es[0]), es[1..]);
    }
  }

  /** After thread_init: main (1) runs, the init process (3) and idle (2) are ready, in that order. */
  const INIT := State(1, 2, map[1 := Running, 2 := Ready, 3 := Ready], [3, 2],
                      map[1 := Outside, 2 := Outside, 3 := Outside], map[], map[])

  lemma InitInv()
    ensures Inv(INIT)
  {
    hide LocksOk, WakeOk, SleepersOk;
    NoLocks(INIT);
    NoSleepers(INIT);
  }

  lemma NoLocks(s: State)
    requires s.locks == map[] && s.open == map[] && forall t :: t in s.pc ==> s.pc[t].Outside?
    ensures LocksOk(s) && WakeOk(s)
  {
  }

  lemma NoSleepers(s: State)
    requires Known(s) && forall t :: t in s.pc ==> s.pc[t].Outside?
    requires forall t :: t in s.status ==> !CannotRun(s.status[t])
    ensures SleepersOk(s)
  {
  }

  /** One thread runs, READY is membership of the ready list, and a general_tag
      is in at most one list. */
  ghost predicate SafeThreads(s: State) {
    && (exists t :: t in s.status && s.status[t].Running? && forall u :: u in s.status && s.status[u].Running? ==> u == t)
    && NoDup(s.ready) && (forall t :: t in s.status ==> (s.status[t].Ready? <==> t in s.ready))
    && (forall t, l :: t in s.ready && l in s.locks ==> t !in s.locks[l].waiters)
    && (forall t, l, m :: l in s.locks && m in s.locks && t in s.locks[l].waiters && t in s.locks[m].waiters ==> l == m)
  }

  /** Mutual exclusion in the callers' terms, and a repeat count that balances. */
  ghost predicate SafeLocks(s: State) {
    && (forall t: nat, u: nat, l: nat :: Open(s.open, t, l) > 0 && Open(s.open, u, l) > 0 ==> t == u)
    && (forall t: nat, l: nat :: Open(s.open, t, l) > 0 ==> t in s.pc && l in s.locks)
    && (forall t: nat, l: nat :: Open(s.open, t, l) > 0 && s.pc[t] != Up(l) ==>
          s.locks[l].repeats == Open(s.open, t, l))
  }

  /** A free lock with waiters has somebody, able to run, who is about to test
      it; a lock that is not free has somebody to free it. */
  ghost predicate SafeWakeups(s: State) {
    && (forall l :: l in s.locks && s.locks[l].value == 1 && s.locks[l].waiters != [] ==>
          exists t :: Retests(s, l, t) && t in s.status && (s.status[t].Ready? || s.status[t].Running?))
    && (forall l :: l in s.locks && s.locks[l].value != 1 ==> exists t :: t in s.pc && s.locks[l].owner == Some(t))
  }

  lemma InvSafeThreads(s: State)
    requires Inv(s)
    ensures SafeThreads(s)
  {
    hide LockOk, OwnersOk, WakeOk;
    assert s.status[s.cur].Running?;
    forall l, t | l in s.locks && t in s.locks[l].waiters
      ensures t !in s.ready && t in s.pc && s.pc[t] == Down(l)
    {
      assert WaitersOk(s, l);
      assert Queued(s, t);
    }
  }

  lemma InvSafeLocks(s: State)
    requires Inv(s)
    ensures SafeLocks(s)
  {
    hide Inside, Open, ReadyOk, SleepersOk, WakeOk, WaitersOk;
    forall t: nat, l: nat | Open(s.open, t, l) > 0
      ensures l in s.locks && s.locks[l].owner == Some(t) && LockOk(s.locks[l], l, s.pc, s.open)
    {
    }
  }

  lemma InvSafeWakeups(s: State)
    requires Inv(s)
    ensures SafeWakeups(s)
  {
    hide OwnersOk, Open, ReadyOk, WaitersOk;
    forall l | l in s.locks && s.locks[l].value == 1 && s.locks[l].waiters != []
      ensures exists t :: Retests(s, l, t) && t in s.status && (s.status[t].Ready? || s.status[t].Running?)
    {
      var t :| Retests(s, l, t);
      assert !Queued(s, t);
    }
    assert forall l :: l in s.locks ==> LockOk(s.locks[l], l, s.pc, s.open);
  }

  /** In every state reachable from initialisation, whatever the interleaving:
      one running thread, an exact ready list, mutual exclusion with balanced
      re-entry, and no lost wakeup. */
  lemma ReachableSafe(es: seq<Event>)
    requires (InitInv(); CanRun(INIT, es))
    ensures (InitInv(); var s := RunFrom(INIT, es); SafeThreads(s) && SafeLocks(s) && SafeWakeups(s))
  {
    hide Inv, SafeThreads, SafeLocks, SafeWakeups;
    InitInv();
    RunInv(INIT, es);
    InvSafeThreads(RunFrom(INIT, es));
    InvSafeLocks(RunFrom(INIT, es));
    InvSafeWakeups(RunFrom(INIT, es));
  }

  // ---- what a step does ----------------------------------------------------

  /** The running thread of `s` leaves the processor with status `st`; the front
      of the ready list runs next, or idle, woken if need be, if there is none. */
  ghost predicate Handover(s: State, st: Status, w: State) {
    var n := if s.ready == [] then s.idle else s.ready[0];
    && w.cur == n && w.ready == (if s.ready == [] then [] else s.ready[1..])
    && w.status == s.status[s.cur := st][n := Running]
    && w.pc == (if s.ready == [] && n in s.pc && s.pc[n].Asleep? then s.pc[n := Outside] else s.pc)
    && w.idle == s.idle && w.locks == s.locks && w.open == s.open
  }

  /** A turn: the running thread goes to the end of the ready list and the front
      of the list runs; alone, it runs on. */
  ghost predicate Turn(s: State, w: State) {
    if s.ready == [] then w == s
    else
      && w.cur == s.ready[0] && w.ready == s.ready[1..] + [s.cur]
      && w.status == s.status[s.cur := Ready][s.ready[0] := Running]
      && w.idle == s.idle && w.pc == s.pc && w.locks == s.locks && w.open == s.open
  }

  /** One round of sema_down: with the value at 0 the thread joins the end of the
      queue and hands over, blocked; otherwise it takes the unit and runs on. */
  ghost predicate DownRound(s: State, l: nat, w: State)
    requires l in s.locks
  {
    var k := s.locks[l];
    if k.value == 0 then Handover(s.(locks := s.locks[l := k.(waiters := k.waiters + [s.cur])]), Blocked, w)
    else
      && l in w.locks && w.locks == s.locks[l := w.locks[l]] && w.locks[l] == k.(value := k.value - 1, owner := Some(s.cur))
      && w.pc == s.pc[s.cur := Took(l)] && w.cur == s.cur && w.idle == s.idle && w.status == s.status && w.ready == s.ready
      && w.open == s.open[(s.cur, l) := Open(s.open, s.cur, l)]
  }

  /** sema_up: the value goes up, and the first in the queue becomes ready, in front of all others. */
  ghost predicate UpRound(s: State, l: nat, w: State)
    requires l in s.locks
  {
    var k := s.locks[l];
    && l in w.locks && w.locks == s.locks[l := w.locks[l]] && w.locks[l].value == k.value + 1
    && w.cur == s.cur && w.idle == s.idle && w.pc == s.pc[s.cur := Outside] && w.open == s.open[(s.cur, l) := 0]
    && if k.waiters == [] then w.locks[l].waiters == [] && w.ready == s.ready && w.status == s.status
       else
         && w.locks[l].waiters == k.waiters[1..] && w.ready == [k.waiters[0]] + s.ready
         && w.status == s.status[k.waiters[0] := Ready]
  }

  /** A timer interrupt gives every ready thread its turn. */
  lemma PreemptExactly(s: State)
    requires Inv(s)
    ensures Turn(s, Apply(s, Preempt))
  {
    hide LocksOk, WakeOk, SleepersOk;
    assert s.status[s.cur := Running] == s.status;
  }

  lemma TurnOf(s: State)
    requires (Inv(s) || Mid(s)) && s.cur in s.status
    ensures if s.status[s.cur].Running? then Turn(s, Scheduled(s)) else Handover(s, s.status[s.cur], Scheduled(s))
  {
    hide LocksOk, WakeOk, SleepersOk;
    if s.status[s.cur].Running? {
      PreemptExactly(s);
    } else {
      DispatchInv(s);
    }
  }

  lemma SleepExactly(s: State, st: Status)
    requires Inv(s) && Enabled(s, Sleep(st))
    ensures Handover(s.(pc := s.pc[s.cur := Asleep]), st, Apply(s, Sleep(st)))
  {
    hide LocksOk, WakeOk, SleepersOk;
  }

  lemma DownExactly(s: State)
    requires Inv(s) && s.pc[s.cur].Down?
    ensures s.pc[s.cur].l in s.locks && DownRound(s, s.pc[s.cur].l, Apply(s, Continue))
  {
    hide LocksOk, WakeOk, SleepersOk;
    ContinueInv(s);
  }

  lemma UpExactly(s: State)
    requires Inv(s) && s.pc[s.cur].Up?
    ensures s.pc[s.cur].l in s.locks && UpRound(s, s.pc[s.cur].l, Apply(s, Continue))
  {
    hide RecordsOk, OwnersOk, WakeOk, SleepersOk, ReadyOk;
    ContinueInv(s);
  }

  /** How many more acquisitions of its lock the running thread has open after its
      next step: one more when lock_acquire returns, one less when lock_release does. */
  function Gain(s: State): int
    requires s.cur in s.pc && !s.pc[s.cur].Outside? && !s.pc[s.cur].Asleep?
  {
    match s.pc[s.cur]
    case Reenter(_) => 1
    case Owner(_) => 1
    case Release(l) => if Open(s.open, s.cur, l) > 1 then -1 else 0
    case Up(_) => -1
    case _ => 0
  }

  ghost predicate Counted(s: State, w: State)
    requires s.cur in s.pc && !s.pc[s.cur].Outside? && !s.pc[s.cur].Asleep?
  {
    && (forall t: nat, l: nat :: Open(w.open, t, l) == Open(s.open, t, l) + if t == s.cur && l == s.pc[s.cur].l then Gain(s) else 0)
    && s.cur in w.pc && (w.pc[s.cur].Outside? <==> Gain(s) != 0)
  }

  /** Each call counts once: the open acquisitions of the running thread change
      by what the call is for, in the step that returns to the caller, and nobody
      else's change. */
  lemma CountsExactly(s: State)
    requires Inv(s) && !s.pc[s.cur].Outside? && !s.pc[s.cur].Asleep?
    ensures Counted(s, Apply(s, Continue))
  {
    hide Inv, Apply, Counted, DownRound, UpRound;
    CountFacts(s);
    if s.pc[s.cur].Down? {
      DownExactly(s);
      CountDown(s, s.pc[s.cur].l, Apply(s, Continue));
    } else if s.pc[s.cur].Up? {
      UpExactly(s);
      CountUp(s, s.pc[s.cur].l, Apply(s, Continue));
    } else {
      CountPlain(s);
    }
  }

  lemma CountFacts(s: State)
    requires Inv(s) && !s.pc[s.cur].Outside? && !s.pc[s.cur].Asleep?
    ensures s.cur in s.pc && s.cur != s.idle && s.pc[s.cur].l in s.locks
    ensures s.pc[s.cur].Up? ==> Open(s.open, s.cur, s.pc[s.cur].l) == 1
  {
    hide WakeOk, ReadyOk, SleepersOk, WaitersOk;
    InsideOrDown(s);
  }

  lemma CountDown(s: State, l: nat, w: State)
    requires s.cur in s.pc && s.cur != s.idle && s.pc[s.cur] == Down(l) && l in s.locks && DownRound(s, l, w)
    ensures Counted(s, w)
  {
  }

  lemma CountUp(s: State, l: nat, w: State)
    requires s.cur in s.pc && s.pc[s.cur] == Up(l) && l in s.locks && UpRound(s, l, w) && Open(s.open, s.cur, l) == 1
    ensures Counted(s, w)
  {
  }

  lemma CountPlain(s: State)
    requires Inv(s) && !s.pc[s.cur].Outside? && !s.pc[s.cur].Asleep? && !s.pc[s.cur].Up? && !s.pc[s.cur].Down?
    ensures Counted(s, Apply(s, Continue))
  {
    hide OwnersOk, WakeOk, ReadyOk, SleepersOk, WaitersOk, UpLock, Enqueue;
    ContinueInv(s);
    InsideOrDown(s);
  }

  /** The calls themselves: an acquisition of a lock the caller has is a re-entry,
      any other queues for it; a woken thread goes to the front of the ready list,
      a new one to its end; exit hands over for good. */
  lemma CallsExactly(s: State, e: Event)
    requires Inv(s) && Enabled(s, e)
    ensures var w := Apply(s, e);
      match e
      case Acquire(l) => w == s.(pc := w.pc, open := w.open) && w.pc == s.pc[s.cur := if Open(s.open, s.cur, l) > 0 then Reenter(l) else Down(l)]
      case ReleaseOf(l) => w == s.(pc := w.pc, open := w.open) && w.pc == s.pc[s.cur := Release(l)]
      case Wake(t) => w.ready == [t] + s.ready && w.status == s.status[t := Ready] && w.cur == s.cur && w.locks == s.locks
      case Start(t) => w.ready == s.ready + [t] && w.status == s.status[t := Ready] && w.cur == s.cur && w.locks == s.locks
      case Exit => w.cur == (if s.ready == [] then s.idle else s.ready[0]) && s.cur !in w.status && w.locks == s.locks
      case _ => true
  {
    hide WakeOk, ReadyOk, SleepersOk, WaitersOk;
    match e
    case Acquire(l) =>
      HolderTestSound(s, l);
      assert s.locks[l := s.locks[l]] == s.locks;
    case ReleaseOf(l) =>
      ReleaseInv(s, l);
      assert s.locks[l := s.locks[l]] == s.locks;
    case Exit => ExitOther(s);
    case _ =>
  }

  lemma ExitOther(s: State)
    requires Inv(s) && s.cur != s.idle
    ensures s.cur !in s.ready
  {
    hide LocksOk, WakeOk, SleepersOk;
  }

  // ---- the code ------------------------------------------------------------

  /** thread.c and sync.c as statements. Every ASSERT of the source is an assert
      here; each method ends in the state the machine's step gives. */
  class Cpu {
    var s: State

    constructor ()
      ensures Inv(s) && s == INIT
    {
      s := INIT;
      new;
      InitInv();
    }

    method ThreadUnblock(t: nat)
      requires Core(s) && t in s.status && t in s.pc && CannotRun(s.status[t]) && t !in s.ready
      modifies this
      ensures s == Unblock(old(s), t)
      ensures s.ready == [t] + old(s).ready && s.status == old(s).status[t := Ready] && s.cur == old(s).cur && s.locks == old(s).locks
    {
      assert s.status[t].Blocked? || s.status[t].Waiting? || s.status[t].Hanging?;
      if !s.status[t].Ready? {
        assert t !in s.ready;
        s := s.(ready := [t] + s.ready);
        s := s.(status := s.status[t := Ready]);
      }
      if s.pc[t].Asleep? {
        s := s.(pc := s.pc[t := Outside]);
      }
    }

    method Schedule()
      requires (Inv(s) || Mid(s)) && s.cur in s.status
      modifies this
      ensures Inv(s) && s == Scheduled(old(s))
      ensures if old(s).status[old(s).cur].Running? then Turn(old(s), s) else Handover(old(s), old(s).status[old(s).cur], s)
    {
      hide LocksOk, WakeOk, SleepersOk;
      var cur := s.cur;
      TurnOf(s);
      if s.status[cur].Running? {
        PreemptInv(s);
        PreemptMid(s);
        assert cur !in s.ready;
        s := s.(ready := s.ready + [cur], status := s.status[cur := Ready]);
      }
      DispatchInv(s);
      if s.ready == [] {
        ThreadUnblock(s.idle);
      }
      assert s.ready != [];
      var next := s.ready[0];
      s := s.(ready := s.ready[1..]);
      s := s.(status := s.status[next := Running], cur := next);
    }

    /** thread_block for a reason other than a semaphore. */
    method ThreadBlock(st: Status)
      requires Inv(s) && s.pc[s.cur].Outside? && CannotRun(st) && (s.cur == s.idle ==> st.Blocked?)
      modifies this
      ensures Inv(s) && s == Apply(old(s), Sleep(st))
      ensures Handover(old(s).(pc := old(s).pc[old(s).cur := Asleep]), st, s)
    {
      hide LocksOk, WakeOk, SleepersOk;
      SleepMid(s, st);
      SleepExactly(s, st);
      s := s.(pc := s.pc[s.cur := Asleep], status := s.status[s.cur := st]);
      Schedule();
    }

    /** One round of sema_down's loop. */
    method SemaDown(l: nat)
      requires Inv(s) && s.pc[s.cur] == Down(l)
      modifies this
      ensures Inv(s) && s == Apply(old(s), Continue)
      ensures l in old(s).locks && DownRound(old(s), l, s)
    {
      hide RecordsOk, OwnersOk, WakeOk, ReadyOk, SleepersOk, DownRound;
      ContinueInv(s);
      DownExactly(s);
      var k := s.locks[l];
      if k.value == 0 {
        assert s.cur !in k.waiters;
        EnqueueMid(s, l);
        s := s.(locks := s.locks[l := k.(waiters := k.waiters + [s.cur])], status := s.status[s.cur := Blocked]);
        Schedule();
      } else {
        k := k.(value := k.value - 1, owner := Some(s.cur));
        assert k.value == 0;
        s := WithLock(s, l, k, Took(l), Open(s.open, s.cur, l));
      }
    }

    /** sema_up, as the last step of lock_release. */
    method SemaUp(l: nat)
      requires Inv(s) && s.pc[s.cur] == Up(l)
      modifies this
      ensures Inv(s) && s == Apply(old(s), Continue)
      ensures l in old(s).locks && UpRound(old(s), l, s)
    {
      hide RecordsOk, OwnersOk, WakeOk, ReadyOk, SleepersOk, UpRound;
      ContinueInv(s);
      UpExactly(s);
      assert s.locks[l].value == 0;
      var k := s.locks[l];
      if k.waiters != [] {
        var w := k.waiters[0];
        k := k.(waiters := k.waiters[1..]);
        ThreadUnblock(w);
      }
      k := k.(value := k.value + 1, owner := None);
      assert k.value == 1;
      s := WithLock(s, l, k, Outside, 0);
    }
  }

  lemma PreemptMid(s: State)
    requires Inv(s)
    ensures Mid(s.(ready := s.ready + [s.cur], status := s.status[s.cur := Ready]))
  {
    hide LocksOk, WakeOk, NoDup;
    var s1 := s.(ready := s.ready + [s.cur], status := s.status[s.cur := Ready]);
    assert s.cur !in s.ready;
    SnocNoDup(s.ready, s.cur);
    assert forall t :: t in s.pc ==> (Queued(s1, t) <==> Queued(s, t));
    SameLocks(s, s1);
  }
}
