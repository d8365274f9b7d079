/** userprog/fork.c and userprog/wait_exit.c with the pid pool of thread.c:
    processes, their parents and their pids. System calls run with interrupts
    off, so each is cut only where it can block: fork between taking a pid and
    inserting the child, exit while it gives its resources back. */
module Processes {
  import opened Common
  import opened Bitmaps

  datatype Status = Active | Waiting | Hanging

  /** Inside sys_fork with the child's pid taken, or past sys_exit's adoption loop. */
  datatype Phase = Normal | Forking(childPid: nat) | Exiting

  /** A PCB. `parent` is the process that created it, or init once adopted; the
      kernel itself keeps only the number `ppid`. */
  datatype Proc = Proc(pid: nat, ppid: int, parent: nat, st: Status, code: int, phase: Phase)

  datatype Reaped = Reaped(id: nat, pid: nat, code: int)

  /** `procs` holds the PCBs by identity, `all` is thread_all_list, `bits` the pid
      bitmap. `used`, `exited` and `reaped` record the past: identities given
      out, statuses passed to exit, and what wait has returned. */
  datatype State = State(procs: map<nat, Proc>, all: seq<nat>, bits: seq<bool>,
                         used: set<nat>, exited: map<nat, int>, reaped: seq<Reaped>)

  const INIT_ID := 0
  const INIT_PID := 1
  const MAX_PIDS := 1024

  // ---- what a consistent process table is ----------------------------------

  ghost predicate ListOk(s: State) {
    NoDup(s.all) && (forall a :: a in s.all <==> a in s.procs) && (forall a :: a in s.procs ==> a in s.used)
  }

  predicate PidTaken(s: State, pid: nat) { 1 <= pid <= |s.bits| && s.bits[pid - 1] }

  /** Pids in use, also those of children under construction, are taken and distinct. */
  ghost predicate PidsOk(s: State) {
    && |s.bits| == MAX_PIDS
    && (forall a :: a in s.procs ==> PidTaken(s, s.procs[a].pid))
    && (forall a, b :: a in s.procs && b in s.procs && a != b ==> s.procs[a].pid != s.procs[b].pid)
    && (forall a :: a in s.procs && s.procs[a].phase.Forking? ==> PidTaken(s, s.procs[a].phase.childPid))
    && (forall a, b :: a in s.procs && b in s.procs && s.procs[a].phase.Forking? ==>
          s.procs[a].phase.childPid != s.procs[b].pid)
    && (forall a, b :: a in s.procs && b in s.procs && a != b && s.procs[a].phase.Forking? && s.procs[b].phase.Forking? ==>
          s.procs[a].phase.childPid != s.procs[b].phase.childPid)
  }

  /** `a`'s parent number names its actual parent, which is alive, has not begun
      to exit and is not hanging. */
  predicate ParentOk(s: State, a: nat)
    requires a in s.procs
  {
    var p := s.procs[a];
    p.ppid == -1 ||
    (p.parent in s.procs && s.procs[p.parent].pid == p.ppid && !s.procs[p.parent].st.Hanging? && !s.procs[p.parent].phase.Exiting?)
  }

  ghost predicate ParentsOk(s: State) {
    && (forall a :: a in s.procs ==> ParentOk(s, a))
    && INIT_ID in s.procs && s.procs[INIT_ID].pid == INIT_PID && s.procs[INIT_ID].ppid == -1
    && (forall a :: a in s.procs && s.procs[a].ppid == -1 ==> !s.procs[a].st.Hanging? && !s.procs[a].phase.Exiting?)
    && (forall a :: a in s.procs && s.procs[a].st.Hanging? ==> s.procs[a].phase.Exiting?)
    && (forall a :: a in s.procs && s.procs[a].st.Waiting? ==> s.procs[a].phase.Normal?)
  }

  predicate HangingChild(s: State, c: nat, p: nat) {
    c in s.procs && p in s.procs && s.procs[c].ppid == s.procs[p].pid && s.procs[c].st.Hanging?
  }

  /** Nobody but init waits although a child of his is already hanging. */
  ghost predicate WaitersOk(s: State) {
    forall p, c :: p != INIT_ID && HangingChild(s, c, p) ==> !s.procs[p].st.Waiting?
  }

  /** Exit statuses are kept until reaped, and each exited process is either
      still in the table or in the record of reaped ones, once. */
  ghost predicate HistoryOk(s: State) {
    && (forall a :: a in s.procs && s.procs[a].phase.Exiting? <==> a in s.exited && a in s.procs)
    && (forall a :: a in s.exited && a in s.procs ==> s.procs[a].code == s.exited[a])
    && (forall a :: a in s.exited ==> a in s.used && (a in s.procs <==> forall i :: 0 <= i < |s.reaped| ==> s.reaped[i].id != a))
    && (forall i :: 0 <= i < |s.reaped| ==> s.reaped[i].id in s.exited && s.reaped[i].code == s.exited[s.reaped[i].id])
    && (forall i, j :: 0 <= i < j < |s.reaped| ==> s.reaped[i].id != s.reaped[j].id)
  }

  ghost predicate Inv(s: State) { ListOk(s) && PidsOk(s) && ParentsOk(s) && WaitersOk(s) && HistoryOk(s) }

  // ---- what the system calls do --------------------------------------------

  function Upd(s: State, a: nat, p: Proc): State { s.(procs := s.procs[a := p]) }

  predicate CanCall(s: State, a: nat) { a in s.procs && s.procs[a].st.Active? && s.procs[a].phase.Normal? }

  /** fork: allocate_pid takes the lowest free pid. */
  function ForkBegin(s: State, a: nat): State
    requires CanCall(s, a) && FirstRun(s.bits, 1) >= 0
  {
    var k := FirstRun(s.bits, 1);
    Upd(s, a, s.procs[a].(phase := Forking(k + 1))).(bits := s.bits[k := true])
  }

  /** fork: the child enters the table, active, with the caller as its parent. */
  function ForkEnd(s: State, a: nat, child: nat): State
    requires a in s.procs && s.procs[a].phase.Forking?
  {
    var p := s.procs[a];
    s.(procs := s.procs[a := p.(phase := Normal)]
                       [child := Proc(p.phase.childPid, p.pid, a, Active, p.code, Normal)],
       all := s.all + [child], used := s.used + {child})
  }

  /** fork failing for want of memory: the pid stays taken. */
  function ForkFail(s: State, a: nat): State
    requires a in s.procs
  {
    Upd(s, a, s.procs[a].(phase := Normal))
  }

  /** exit_status is an int8_t. */
  function Int8(x: int): (r: int)
    ensures -128 <= r < 128 && (x - r) % 256 == 0
  {
    (x + 128) % 256 - 128
  }

  function Adopted(p: Proc, pid: nat): Proc {
    if p.ppid == pid then p.(ppid := INIT_PID, parent := INIT_ID) else p
  }

  function AdoptAll(procs: map<nat, Proc>, pid: nat): map<nat, Proc> {
    map b | b in procs :: Adopted(procs[b], pid)
  }

  /** exit: record the status and give all children to init. */
  function ExitBegin(s: State, a: nat, status: int): State
    requires a in s.procs
  {
    var procs := AdoptAll(s.procs, s.procs[a].pid);
    s.(procs := procs[a := procs[a].(code := Int8(status), phase := Exiting)],
       exited := s.exited[a := Int8(status)])
  }

  /** exit: wake the parent if it waits, and hang. */
  function ExitEnd(s: State, a: nat): State
    requires a in s.procs
  {
    var q := s.procs[a].parent;
    var procs := if q in s.procs && s.procs[q].st.Waiting? then s.procs[q := s.procs[q].(st := Active)] else s.procs;
    s.(procs := procs[a := procs[a].(st := Hanging)])
  }

  /** wait: the child leaves the table and its pid becomes free. */
  function Reap(s: State, c: nat): State
    requires c in s.procs && 1 <= s.procs[c].pid <= |s.bits|
  {
    var p := s.procs[c];
    s.(procs := s.procs - {c}, all := Without(s.all, c), bits := s.bits[p.pid - 1 := false],
       reaped := s.reaped + [Reaped(c, p.pid, p.code)])
  }

  function Without(s: seq<nat>, x: nat): (r: seq<nat>)
    ensures forall y :: y in r <==> y in s && y != x
  {
    if s == [] then []
    else
      assert s == [s[0]] + s[1..];
      if s[0] == x then Without(s[1..], x) else [s[0]] + Without(s[1..], x)
  }

  lemma WithoutNoDup(s: seq<nat>, x: nat)
    requires NoDup(s)
    ensures NoDup(Without(s, x))
  {
    if s != [] {
      WithoutNoDup(s[1..], x);
      assert s[0] !in s[1..] && s[0] !in Without(s[1..], x);
    }
  }

  // ---- every step keeps the table consistent -------------------------------

  /** Changing one entry without touching pid, parent, code or status. */
  lemma SameLinks(s: State, s': State)
    requires s'.procs.Keys == s.procs.Keys
    requires forall b :: b in s.procs ==> SameProc(s.procs[b], s'.procs[b])
    ensures ParentsOk(s) && PhasesKept(s, s') ==> ParentsOk(s')
    ensures WaitersOk(s) ==> WaitersOk(s')
  {
    hide PidsOk, HistoryOk;
    assert forall p, c :: HangingChild(s', c, p) <==> HangingChild(s, c, p);
    assert ParentsOk(s) ==> forall b :: b in s.procs ==> ParentOk(s, b);
  }

  predicate SameProc(p: Proc, q: Proc) { q == p.(phase := q.phase) }

  /** No process starts or stops exiting, and waiting ones stay where they are. */
  ghost predicate PhasesKept(s: State, s': State)
    requires s'.procs.Keys == s.procs.Keys
  {
    && (forall b :: b in s.procs ==> (s'.procs[b].phase.Exiting? <==> s.procs[b].phase.Exiting?))
    && (forall b :: b in s.procs && s.procs[b].st.Waiting? ==> s'.procs[b].phase == s.procs[b].phase)
  }

  lemma ForkBeginInv(s: State, a: nat)
    requires Inv(s) && CanCall(s, a) && FirstRun(s.bits, 1) >= 0
    ensures Inv(ForkBegin(s, a))
  {
    hide PidsOk, ParentsOk, WaitersOk;
    var s' := ForkBegin(s, a);
    SameLinks(s, s');
    ForkBeginPids(s, a);
  }

  lemma ForkBeginPids(s: State, a: nat)
    requires PidsOk(s) && CanCall(s, a) && FirstRun(s.bits, 1) >= 0
    ensures PidsOk(ForkBegin(s, a))
  {
    var s' := ForkBegin(s, a);
    var k := FirstRun(s.bits, 1);
    assert ClearRun(s.bits, k, 1) && !s.bits[k];
    assert !PidTaken(s, k + 1);
    assert forall pid: nat :: PidTaken(s', pid) <==> PidTaken(s, pid) || pid == k + 1;
    hide FirstRun;
  }

  lemma ForkFailInv(s: State, a: nat)
    requires Inv(s) && a in s.procs && s.procs[a].phase.Forking?
    ensures Inv(ForkFail(s, a))
  {
    hide ParentsOk, WaitersOk, PidsOk;
    var s' := ForkFail(s, a);
    ForkingActive(s, a);
    SameLinks(s, s');
    ForkFailPids(s, a);
  }

  lemma ForkFailPids(s: State, a: nat)
    requires PidsOk(s) && a in s.procs && s.procs[a].phase.Forking?
    ensures PidsOk(ForkFail(s, a))
  {
    hide PidsOk;
    SamePids(s, ForkFail(s, a));
  }

  lemma ForkingActive(s: State, a: nat)
    requires ParentsOk(s) && a in s.procs && s.procs[a].phase.Forking?
    ensures s.procs[a].st.Active?
  {
  }

  lemma ForkEndInv(s: State, a: nat, child: nat)
    requires Inv(s) && a in s.procs && s.procs[a].phase.Forking? && child !in s.used
    ensures Inv(ForkEnd(s, a, child))
  {
    hide PidsOk, ParentsOk, WaitersOk, HistoryOk;
    ForkEndPids(s, a, child);
    NoChildYet(s, a);
    ForkEndParents(s, a, child);
    ForkEndHistory(s, a, child);
  }

  /** A pid just taken is nobody's parent number: pids of the dead do not linger. */
  lemma NoChildYet(s: State, a: nat)
    requires PidsOk(s) && ParentsOk(s) && a in s.procs && s.procs[a].phase.Forking?
    ensures forall b :: b in s.procs ==> s.procs[b].ppid != s.procs[a].phase.childPid
  {
    forall b | b in s.procs
      ensures s.procs[b].ppid != s.procs[a].phase.childPid
    {
      assert ParentOk(s, b);
    }
  }

  lemma ForkEndPids(s: State, a: nat, child: nat)
    requires PidsOk(s) && a in s.procs && s.procs[a].phase.Forking? && child !in s.procs
    ensures PidsOk(ForkEnd(s, a, child))
  {
    hide PidTaken;
    var s' := ForkEnd(s, a, child);
    forall pid: nat ensures PidTaken(s', pid) <==> PidTaken(s, pid) { SameTaken(s, s', pid); }
  }

  lemma SameTaken(s: State, s': State, pid: nat)
    requires s'.bits == s.bits
    ensures PidTaken(s', pid) <==> PidTaken(s, pid)
  {
  }

  lemma ForkEndParents(s: State, a: nat, child: nat)
    requires ParentsOk(s) && WaitersOk(s) && a in s.procs && s.procs[a].phase.Forking? && child !in s.procs
    requires forall b :: b in s.procs ==> s.procs[b].ppid != s.procs[a].phase.childPid
    ensures ParentsOk(ForkEnd(s, a, child)) && WaitersOk(ForkEnd(s, a, child))
  {
    var s' := ForkEnd(s, a, child);
    forall b | b in s'.procs
      ensures ParentOk(s', b)
    {
      assert b in s.procs ==> ParentOk(s, b);
    }
    assert forall p, c :: HangingChild(s', c, p) && p != child ==> HangingChild(s, c, p);
  }

  lemma ForkEndHistory(s: State, a: nat, child: nat)
    requires HistoryOk(s) && a in s.procs && s.procs[a].phase.Forking? && child !in s.used && child !in s.procs
    ensures HistoryOk(ForkEnd(s, a, child))
  {
  }

  lemma ExitBeginInv(s: State, a: nat, status: int)
    requires Inv(s) && CanCall(s, a) && s.procs[a].ppid != -1
    ensures Inv(ExitBegin(s, a, status))
  {
    hide PidsOk, ParentsOk, WaitersOk, HistoryOk;
    ExitBeginPids(s, a, status);
    ExitBeginParents(s, a, status);
    ExitBeginWaiters(s, a, status);
    ExitBeginHistory(s, a, status);
  }

  /** Pids depend on the pid fields, the forks under way and the bitmap. */
  lemma SamePids(s: State, s': State)
    requires PidsOk(s) && s'.procs.Keys == s.procs.Keys && s'.bits == s.bits
    requires forall b :: b in s.procs ==> s'.procs[b].pid == s.procs[b].pid
    requires forall b :: b in s.procs && s'.procs[b].phase.Forking? ==> s'.procs[b].phase == s.procs[b].phase
    ensures PidsOk(s')
  {
    assert forall pid: nat :: PidTaken(s', pid) <==> PidTaken(s, pid);
    hide PidTaken;
  }

  lemma ExitBeginPids(s: State, a: nat, status: int)
    requires PidsOk(s) && a in s.procs
    ensures PidsOk(ExitBegin(s, a, status))
  {
    hide PidsOk;
    SamePids(s, ExitBegin(s, a, status));
  }

  /** After the adoption loop nobody is left with the exiting process as parent. */
  lemma ExitBeginParents(s: State, a: nat, status: int)
    requires ParentsOk(s) && PidsOk(s) && CanCall(s, a) && s.procs[a].ppid != -1
    ensures ParentsOk(ExitBegin(s, a, status))
  {
    hide PidsOk;
    var s' := ExitBegin(s, a, status);
    assert a != INIT_ID;
    forall b | b in s'.procs
      ensures ParentOk(s', b)
    {
      AdoptOne(s, a, status, b);
    }
  }

  lemma AdoptOne(s: State, a: nat, status: int, b: nat)
    requires ParentsOk(s) && PidsOk(s) && CanCall(s, a) && a != INIT_ID && b in s.procs
    ensures ParentOk(ExitBegin(s, a, status), b)
  {
    var s' := ExitBegin(s, a, status);
    assert ParentOk(s, b);
    if s.procs[b].ppid != s.procs[a].pid && s.procs[b].ppid != -1 {
      var q := s.procs[b].parent;
      assert q != a;
      assert s'.procs[q] == Adopted(s.procs[q], s.procs[a].pid);
    }
  }

  lemma ExitBeginWaiters(s: State, a: nat, status: int)
    requires WaitersOk(s) && ParentsOk(s) && PidsOk(s) && CanCall(s, a)
    ensures WaitersOk(ExitBegin(s, a, status))
  {
    hide PidTaken;
    var s' := ExitBegin(s, a, status);
    forall p, c | p != INIT_ID && HangingChild(s', c, p)
      ensures !s'.procs[p].st.Waiting?
    {
      assert s.procs[c].ppid != s.procs[a].pid ==> HangingChild(s, c, p);
    }
  }

  lemma ExitBeginHistory(s: State, a: nat, status: int)
    requires HistoryOk(s) && CanCall(s, a) && a in s.used
    ensures HistoryOk(ExitBegin(s, a, status))
  {
    assert a !in s.exited;
    forall i | 0 <= i < |s.reaped|
      ensures s.reaped[i].id != a
    {
    }
  }

  lemma ExitEndInv(s: State, a: nat)
    requires Inv(s) && a in s.procs && s.procs[a].phase.Exiting? && !s.procs[a].st.Hanging?
    ensures Inv(ExitEnd(s, a))
  {
    hide PidsOk, ParentsOk, WaitersOk, HistoryOk;
    ExitEndPids(s, a);
    ExitEndParents(s, a);
    ExitEndWaiters(s, a);
    ExitEndHistory(s, a);
  }

  lemma ExitEndPids(s: State, a: nat)
    requires PidsOk(s) && a in s.procs
    ensures PidsOk(ExitEnd(s, a))
  {
    hide PidsOk;
    SamePids(s, ExitEnd(s, a));
  }

  lemma ExitEndParents(s: State, a: nat)
    requires ParentsOk(s) && a in s.procs && s.procs[a].phase.Exiting?
    ensures ParentsOk(ExitEnd(s, a))
  {
    var s' := ExitEnd(s, a);
    assert forall b :: b in s.procs ==> s'.procs[b] == s.procs[b].(st := s'.procs[b].st);
    forall b | b in s'.procs
      ensures ParentOk(s', b)
    {
      assert ParentOk(s, b);
    }
  }

  /** The parent that could be waiting is the one that is woken. */
  lemma ExitEndWaiters(s: State, a: nat)
    requires WaitersOk(s) && ParentsOk(s) && PidsOk(s) && a in s.procs && s.procs[a].phase.Exiting?
    ensures WaitersOk(ExitEnd(s, a))
  {
    hide PidTaken;
    var s' := ExitEnd(s, a);
    assert ParentOk(s, a);
    forall p, c | p != INIT_ID && HangingChild(s', c, p)
      ensures !s'.procs[p].st.Waiting?
    {
      if c == a { assert p == s.procs[a].parent; } else { assert HangingChild(s, c, p); }
    }
  }

  lemma ExitEndHistory(s: State, a: nat)
    requires HistoryOk(s) && a in s.procs
    ensures HistoryOk(ExitEnd(s, a))
  {
    var s' := ExitEnd(s, a);
    assert forall b :: b in s.procs ==> s'.procs[b] == s.procs[b].(st := s'.procs[b].st);
  }

  lemma ReapInv(s: State, c: nat)
    requires Inv(s) && c in s.procs && s.procs[c].st.Hanging?
    ensures PidTaken(s, s.procs[c].pid) && Inv(Reap(s, c))
  {
    hide PidsOk, ParentsOk, WaitersOk, HistoryOk;
    PidOk(s, c);
    WithoutNoDup(s.all, c);
    ReapPids(s, c);
    ReapParents(s, c);
    ReapHistory(s, c);
  }

  lemma PidOk(s: State, c: nat)
    requires PidsOk(s) && c in s.procs
    ensures PidTaken(s, s.procs[c].pid)
  {
  }

  lemma ReapPids(s: State, c: nat)
    requires PidsOk(s) && c in s.procs && PidTaken(s, s.procs[c].pid)
    ensures PidsOk(Reap(s, c))
  {
    var s' := Reap(s, c);
    assert forall pid: nat :: PidTaken(s', pid) <==> PidTaken(s, pid) && pid != s.procs[c].pid;
  }

  lemma ReapParents(s: State, c: nat)
    requires ParentsOk(s) && WaitersOk(s) && c in s.procs && s.procs[c].st.Hanging? && PidTaken(s, s.procs[c].pid)
    ensures ParentsOk(Reap(s, c)) && WaitersOk(Reap(s, c))
  {
    var s' := Reap(s, c);
    forall b | b in s'.procs
      ensures ParentOk(s', b)
    {
      assert ParentOk(s, b);
    }
    assert forall p, d :: HangingChild(s', d, p) ==> HangingChild(s, d, p);
  }

  lemma ReapHistory(s: State, c: nat)
    requires HistoryOk(s) && ParentsOk(s) && c in s.procs && s.procs[c].st.Hanging? && PidTaken(s, s.procs[c].pid)
    ensures HistoryOk(Reap(s, c))
  {
    var s' := Reap(s, c);
    assert s.procs[c].phase.Exiting? && c in s.exited;
    forall b | b in s'.exited
      ensures b in s'.procs <==> forall i :: 0 <= i < |s'.reaped| ==> s'.reaped[i].id != b
    {
      if b == c {
        assert s'.reaped[|s.reaped|].id == b;
      } else {
        assert forall i :: 0 <= i < |s.reaped| ==> s'.reaped[i] == s.reaped[i];
      }
    }
  }

  // ---- wait ----------------------------------------------------------------

  datatype WaitResult = Child(pid: nat, code: int) | NoChild | Sleeps

  predicate IsChild(s: State, c: nat, p: nat) { c in s.procs && p in s.procs && s.procs[c].ppid == s.procs[p].pid }

  /** find_hanging_child or find_child. */
  predicate Matches(s: State, c: nat, p: nat, hanging: bool) {
    if hanging then HangingChild(s, c, p) else IsChild(s, c, p)
  }

  /** The first match in `l`, as list_traversal finds it. */
  function First(s: State, l: seq<nat>, p: nat, hanging: bool): (r: int)
    ensures r == -1 || (0 <= r < |l| && Matches(s, l[r], p, hanging))
    ensures forall i :: 0 <= i < |l| && Matches(s, l[i], p, hanging) ==> 0 <= r <= i
  {
    if l == [] then -1
    else if Matches(s, l[0], p, hanging) then 0
    else
      var r := First(s, l[1..], p, hanging);
      assert forall i :: 1 <= i < |l| ==> l[i] == l[1..][i - 1];
      if r == -1 then -1 else r + 1
  }

  /** One round of sys_wait: reap the first hanging child, fail without
      children, otherwise sleep. */
  function WaitRound(s: State, a: nat): (r: (State, WaitResult))
    requires a in s.procs
    requires forall c :: HangingChild(s, c, a) ==> 1 <= s.procs[c].pid <= |s.bits|
  {
    var i := First(s, s.all, a, true);
    if i >= 0 then
      var c := s.all[i];
      (Reap(s, c), Child(s.procs[c].pid, s.procs[c].code))
    else if First(s, s.all, a, false) == -1 then (s, NoChild)
    else (Upd(s, a, s.procs[a].(st := Waiting)), Sleeps)
  }

  lemma WaitRoundInv(s: State, a: nat)
    requires Inv(s) && CanCall(s, a)
    ensures forall c :: HangingChild(s, c, a) ==> 1 <= s.procs[c].pid <= |s.bits|
    ensures Inv(WaitRound(s, a).0)
  {
    hide PidsOk, ParentsOk, WaitersOk, HistoryOk;
    forall c | HangingChild(s, c, a)
      ensures 1 <= s.procs[c].pid <= |s.bits|
    {
      PidOk(s, c);
    }
    var i := First(s, s.all, a, true);
    if i >= 0 {
      ReapInv(s, s.all[i]);
    } else if First(s, s.all, a, false) != -1 {
      SleepInv(s, a);
    }
  }

  lemma SleepInv(s: State, a: nat)
    requires Inv(s) && CanCall(s, a) && forall c :: c in s.all ==> !HangingChild(s, c, a)
    ensures Inv(Upd(s, a, s.procs[a].(st := Waiting)))
  {
    hide PidsOk, HistoryOk, ListOk, ParentsOk;
    var s' := Upd(s, a, s.procs[a].(st := Waiting));
    SamePids(s, s');
    SleepHistory(s, a);
    SleepParents(s, a);
    assert forall p, c :: HangingChild(s', c, p) ==> HangingChild(s, c, p) && c in s.all;
  }

  lemma SleepParents(s: State, a: nat)
    requires ListOk(s) && ParentsOk(s) && CanCall(s, a)
    ensures var s' := Upd(s, a, s.procs[a].(st := Waiting));
      ListOk(s') && ParentsOk(s') && forall c :: c in s.procs ==> c in s.all
  {
    assert forall b :: b in s.procs ==> ParentOk(s, b);
  }

  lemma SleepHistory(s: State, a: nat)
    requires HistoryOk(s) && a in s.procs
    ensures HistoryOk(Upd(s, a, s.procs[a].(st := Waiting)))
  {
  }

  /** Wait has taken `c`, a child of `a` that had exited, off the table, with its pid. */
  ghost predicate Reaps(s: State, c: nat, a: nat, s': State, r: WaitResult) {
    && HangingChild(s, c, a) && c in s.exited && 1 <= s.procs[c].pid <= |s.bits|
    && r == Child(s.procs[c].pid, s.exited[c]) && s'.procs == s.procs - {c}
    && s'.reaped == s.reaped + [Reaped(c, r.pid, r.code)] && s'.bits == s.bits[s.procs[c].pid - 1 := false]
  }

  /** What wait returns is a child of the caller that had exited, with the status
      it passed to exit; it leaves the table and nobody else does. */
  lemma WaitReturns(s: State, a: nat)
    requires Inv(s) && CanCall(s, a)
    requires forall c :: HangingChild(s, c, a) ==> 1 <= s.procs[c].pid <= |s.bits|
    ensures var (s', r) := WaitRound(s, a);
            && (r.Child? <==> exists c :: HangingChild(s, c, a))
            && (r.Child? ==> exists c :: Reaps(s, c, a, s', r))
            && (r.NoChild? <==> forall c :: !IsChild(s, c, a)) && (r.NoChild? ==> s' == s)
            && (r.Sleeps? ==> s' == s.(procs := s.procs[a := s.procs[a].(st := Waiting)]))
  {
    hide PidsOk, ParentsOk, WaitersOk, HistoryOk, First, HangingChild, IsChild, Without;
    FirstMeans(s, a, true);
    FirstMeans(s, a, false);
    var i := First(s, s.all, a, true);
    if i >= 0 {
      Exited(s, s.all[i], a);
      assert Reaps(s, s.all[i], a, WaitRound(s, a).0, WaitRound(s, a).1);
    }
  }

  /** The child of a fork has the pid the caller took and the caller as parent;
      nobody else changes, and a wait of the caller has a child to find. */
  lemma ForkChild(s: State, a: nat, child: nat)
    requires Inv(s) && a in s.procs && s.procs[a].phase.Forking? && child !in s.used
    ensures var s' := ForkEnd(s, a, child);
      && s'.procs.Keys == s.procs.Keys + {child} && s'.all == s.all + [child] && s'.bits == s.bits
      && s'.procs[child].pid == s.procs[a].phase.childPid && s'.procs[child].st.Active? && IsChild(s', child, a)
      && (forall b :: b in s.procs && b != a ==> s'.procs[b] == s.procs[b])
      && s'.procs[a] == s.procs[a].(phase := Normal)
      && CanCall(s', a) && Inv(s') && (WaitRoundInv(s', a); WaitRound(s', a).1 != NoChild)
  {
    hide PidsOk, WaitersOk, ParentsOk, First;
    var s' := ForkEnd(s, a, child);
    ForkingActive(s, a);
    ForkEndInv(s, a, child);
    assert child !in s.procs;
    WaitRoundInv(s', a);
    WaitReturns(s', a);
    assert IsChild(s', child, a);
  }

  lemma FirstMeans(s: State, a: nat, hanging: bool)
    requires ListOk(s) && a in s.procs
    ensures var i := First(s, s.all, a, hanging);
      && (i >= 0 <==> exists c :: if hanging then HangingChild(s, c, a) else IsChild(s, c, a))
      && (i >= 0 ==> i < |s.all| && if hanging then HangingChild(s, s.all[i], a) else IsChild(s, s.all[i], a))
  {
    var i := First(s, s.all, a, hanging);
    if i >= 0 {
      assert if hanging then HangingChild(s, s.all[i], a) else IsChild(s, s.all[i], a);
    } else {
      forall c ensures !(if hanging then HangingChild(s, c, a) else IsChild(s, c, a)) {
        assert c in s.procs ==> c in s.all;
        assert c in s.all ==> !Matches(s, c, a, hanging);
      }
    }
  }

  lemma Exited(s: State, c: nat, a: nat)
    requires Inv(s) && HangingChild(s, c, a)
    ensures c in s.exited && s.exited[c] == s.procs[c].code && IsChild(s, c, a)
  {
    hide PidsOk, WaitersOk;
  }

  // ---- runs ----------------------------------------------------------------

  datatype Event =
    | ForkPid(a: nat)
    | ForkInsert(a: nat, child: nat)
    | ForkNoMemory(a: nat)
    | ExitAdopt(a: nat, status: int)
    | ExitHang(a: nat)
    | Wait(a: nat)

  /** A process that is not inside a call may make one; pids have not run out;
      init and the kernel threads, which have no parent, do not exit. */
  ghost predicate Enabled(s: State, e: Event) {
    match e
    case ForkPid(a) => CanCall(s, a) && FirstRun(s.bits, 1) >= 0
    case ForkInsert(a, child) => a in s.procs && s.procs[a].phase.Forking? && child !in s.used
    case ForkNoMemory(a) => a in s.procs && s.procs[a].phase.Forking?
    case ExitAdopt(a, status) => CanCall(s, a) && s.procs[a].ppid != -1
    case ExitHang(a) => a in s.procs && s.procs[a].phase.Exiting? && !s.procs[a].st.Hanging?
    case Wait(a) => CanCall(s, a)
  }

  ghost function Apply(s: State, e: Event): State
    requires Inv(s) && Enabled(s, e)
  {
    match e
    case ForkPid(a) => ForkBegin(s, a)
    case ForkInsert(a, child) => ForkEnd(s, a, child)
    case ForkNoMemory(a) => ForkFail(s, a)
    case ExitAdopt(a, status) => ExitBegin(s, a, status)
    case ExitHang(a) => ExitEnd(s, a)
    case Wait(a) => WaitRoundInv(s, a); WaitRound(s, a).0
  }

  lemma StepInv(s: State, e: Event)
    requires Inv(s) && Enabled(s, e)
    ensures Inv(Apply(s, e))
  {
    hide Inv;
    match e
    case ForkPid(a) => ForkBeginInv(s, a);
    case ForkInsert(a, child) => ForkEndInv(s, a, child);
    case ForkNoMemory(a) => ForkFailInv(s, a);
    case ExitAdopt(a, status) => ExitBeginInv(s, a, status);
    case ExitHang(a) => ExitEndInv(s, a);
    case Wait(a) => WaitRoundInv(s, a);
  }

  ghost predicate CanRun(s: State, es: seq<Event>)
    requires Inv(s)
    decreases |es|
  {
    es == [] || (Enabled(s, es[0]) && (StepInv(s, es[0]); CanRun(Apply(s, es[0]), es[1..])))
  }

  ghost function RunFrom(s: State, es: seq<Event>): State
    requires Inv(s) && CanRun(s, es)
    decreases |es|
  {
    if es == [] then s else (StepInv(s, es[0]); RunFrom(Apply(s, es[0]), es[1..]))
  }

  lemma {:induction false} RunInv(s: State, es: seq<Event>)
    requires Inv(s) && CanRun(s, es)
    ensures Inv(RunFrom(s, es))
    decreases |es|
  {
    hide Inv, Enabled, Apply;
    if es != [] {
      StepInv(s, es[0]);
      RunInv(Apply(s, es[0]), es[1..]);
    }
  }

  const MAIN := Proc(2, -1, 1, Active, 0, Normal)
  const IDLE := Proc(3, -1, 2, Active, 0, Normal)

  /** The first `n` pids taken. */
  function Lowest(n: nat): (b: seq<bool>)
    ensures |b| == MAX_PIDS && forall i :: 0 <= i < MAX_PIDS ==> b[i] == (i < n)
  {
    seq(MAX_PIDS, i => i < n)
  }

  /** After thread_init: init, main and idle with pids 1, 2 and 3, none of which has a parent. */
  const START := State(map[INIT_ID := Proc(INIT_PID, -1, INIT_ID, Active, 0, Normal), 1 := MAIN, 2 := IDLE],
                       [INIT_ID, 1, 2], Lowest(3), {INIT_ID, 1, 2}, map[], [])

  lemma StartInv()
    ensures Inv(START)
  {
    hide PidsOk, ParentsOk;
    DistinctPids(START);
    StartParents();
    assert START.all[0] == INIT_ID && START.all[1] == 1 && START.all[2] == 2;
  }

  lemma StartParents()
    ensures ParentsOk(START)
  {
  }

  /** Every parent number names exactly one process: the actual parent, alive
      and not hanging. Every exited process is awaiting its parent or has been
      reaped exactly once, with its own status. */
  ghost predicate TreeSafe(s: State) {
    && (forall a :: a in s.procs && s.procs[a].ppid != -1 ==>
          exists b :: b in s.procs && b == s.procs[a].parent && s.procs[b].pid == s.procs[a].ppid && !s.procs[b].st.Hanging?
                      && forall c :: c in s.procs && s.procs[c].pid == s.procs[a].ppid ==> c == b)
    && (forall i :: 0 <= i < |s.reaped| ==>
          s.reaped[i].id in s.exited && s.reaped[i].id !in s.procs && s.reaped[i].code == s.exited[s.reaped[i].id])
    && (forall i, j :: 0 <= i < j < |s.reaped| ==> s.reaped[i].id != s.reaped[j].id)
    && (forall a :: a in s.exited ==> a in s.procs || exists i :: 0 <= i < |s.reaped| && s.reaped[i].id == a)
    && WaitersOk(s)
  }

  lemma ReachableSafe(es: seq<Event>)
    requires (StartInv(); CanRun(START, es))
    ensures (StartInv(); TreeSafe(RunFrom(START, es)))
  {
    hide Inv, TreeSafe;
    StartInv();
    RunInv(START, es);
    InvSafe(RunFrom(START, es));
  }

  lemma InvSafe(s: State)
    requires Inv(s)
    ensures TreeSafe(s)
  {
    forall a | a in s.procs && s.procs[a].ppid != -1
      ensures exists b :: b in s.procs && b == s.procs[a].parent && s.procs[b].pid == s.procs[a].ppid && !s.procs[b].st.Hanging?
                          && forall c :: c in s.procs && s.procs[c].pid == s.procs[a].ppid ==> c == b
    {
      assert ParentOk(s, a);
    }
  }

  // ---- init and children that were already hanging -------------------------

  /** Nobody at all, init included, waits although a child is hanging. */
  ghost predicate NoLost(s: State) {
    forall p, c :: HangingChild(s, c, p) ==> !s.procs[p].st.Waiting?
  }

  /** An exit breaks this exactly when init is waiting and the exiting process
      leaves it a child that is already hanging: adoption wakes nobody. */
  lemma LostExactly(s: State, a: nat, status: int)
    requires Inv(s) && NoLost(s) && CanCall(s, a) && s.procs[a].ppid != -1
    ensures NoLost(ExitBegin(s, a, status)) <==>
            !(s.procs[INIT_ID].st.Waiting? && exists c :: HangingChild(s, c, a))
  {
    hide PidsOk, HistoryOk, ListOk;
    var s' := ExitBegin(s, a, status);
    ExitBeginInv(s, a, status);
    if s.procs[INIT_ID].st.Waiting? && exists c :: HangingChild(s, c, a) {
      var c :| HangingChild(s, c, a);
      assert c != a;
      assert HangingChild(s', c, INIT_ID);
      assert !NoLost(s');
    } else {
      forall p, c | HangingChild(s', c, p)
        ensures !s'.procs[p].st.Waiting?
      {
        if p == INIT_ID && s.procs[c].ppid != s.procs[a].pid { assert HangingChild(s, c, p); }
        if p == INIT_ID && s.procs[c].ppid == s.procs[a].pid { assert HangingChild(s, c, a); }
      }
    }
  }

  /** No other call breaks it. */
  lemma LostNowhereElse(s: State, e: Event)
    requires Inv(s) && NoLost(s) && Enabled(s, e) && !e.ExitAdopt?
    ensures NoLost(Apply(s, e))
  {
    hide PidsOk, HistoryOk, WaitersOk;
    match e
    case ForkPid(a) => assert forall p, c :: HangingChild(Apply(s, e), c, p) ==> HangingChild(s, c, p);
    case ForkInsert(a, child) =>
      NoChildYet(s, a);
      assert forall p, c :: HangingChild(Apply(s, e), c, p) && p != child ==> HangingChild(s, c, p);
    case ForkNoMemory(a) => assert forall p, c :: HangingChild(Apply(s, e), c, p) ==> HangingChild(s, c, p);
    case ExitHang(a) => HangLosesNothing(s, a);
    case Wait(a) =>
      WaitRoundInv(s, a);
      WaitLosesNothing(s, a);
  }

  lemma HangLosesNothing(s: State, a: nat)
    requires Inv(s) && NoLost(s) && a in s.procs && s.procs[a].phase.Exiting?
    ensures NoLost(ExitEnd(s, a))
  {
    hide HistoryOk, WaitersOk, PidTaken, ListOk;
    var s' := ExitEnd(s, a);
    assert ParentOk(s, a);
    forall p, c | HangingChild(s', c, p)
      ensures !s'.procs[p].st.Waiting?
    {
      if c == a { assert p == s.procs[a].parent; } else { assert HangingChild(s, c, p); }
    }
  }

  lemma WaitLosesNothing(s: State, a: nat)
    requires Inv(s) && NoLost(s) && CanCall(s, a)
    requires forall c :: HangingChild(s, c, a) ==> 1 <= s.procs[c].pid <= |s.bits|
    ensures NoLost(WaitRound(s, a).0)
  {
    hide PidsOk, HistoryOk, WaitersOk, ParentsOk;
    var s' := WaitRound(s, a).0;
    forall p, c | HangingChild(s', c, p)
      ensures !s'.procs[p].st.Waiting?
    {
      assert HangingChild(s, c, p) && c in s.all;
    }
  }

  // A run that gets there: init forks 3 and waits, 3 forks 4, 4 exits, 3 exits.

  /** init, main and idle, with init as `p0`, and processes 3 and 4 as far as they are there. */
  ghost predicate Snap(s: State, p0: Proc, kids: seq<Proc>, n: nat) {
    && |kids| <= 2 && s.bits == Lowest(n)
    && (forall a: nat :: a in s.procs <==> a < 3 + |kids|) && s.used == s.procs.Keys
    && s.procs[0] == p0 && s.procs[1] == MAIN && s.procs[2] == IDLE
    && (|kids| >= 1 ==> s.procs[3] == kids[0]) && (|kids| >= 2 ==> s.procs[4] == kids[1])
  }

  function Init(st: Status): Proc { Proc(INIT_PID, -1, INIT_ID, st, 0, Normal) }

  lemma LowestFree(n: nat)
    requires n < MAX_PIDS
    ensures FirstRun(Lowest(n), 1) == n && Lowest(n)[n := true] == Lowest(n + 1)
  {
    forall j: nat | j < n ensures !ClearRun(Lowest(n), j, 1) {
      assert Lowest(n)[j];
    }
    FirstRunIs(Lowest(n), 1, n);
  }

  /** Process `a` forks its first child, as number 3 + |kids| with pid n + 1. */
  lemma SnapFork(s: State, p0: Proc, kids: seq<Proc>, n: nat, a: nat)
    requires Inv(s) && Snap(s, p0, kids, n) && |kids| < 2 && n < MAX_PIDS && CanCall(s, a) && s.procs[a].code == 0
    requires a == 0 || a == 3
    ensures Enabled(s, ForkPid(a))
    ensures var s1 := ForkBegin(s, a);
            var child := 3 + |kids|;
            && Inv(s1) && Enabled(s1, ForkInsert(a, child))
            && Inv(ForkEnd(s1, a, child))
            && Snap(ForkEnd(s1, a, child), p0, kids + [Proc(n + 1, s.procs[a].pid, a, Active, 0, Normal)], n + 1)
  {
    hide PidsOk, ParentsOk, WaitersOk, HistoryOk, ListOk, FirstRun;
    LowestFree(n);
    StepInv(s, ForkPid(a));
    StepInv(ForkBegin(s, a), ForkInsert(a, 3 + |kids|));
  }

  /** init waits while its child is alive. */
  lemma SnapWait(s: State, kid: Proc, n: nat)
    requires Inv(s) && Snap(s, Init(Active), [kid], n) && kid.ppid == INIT_PID && !kid.st.Hanging?
    ensures Enabled(s, Wait(0)) && Inv(Apply(s, Wait(0))) && Snap(Apply(s, Wait(0)), Init(Waiting), [kid], n)
  {
    hide PidsOk, ParentsOk, WaitersOk, HistoryOk, First;
    StepInv(s, Wait(0));
    WaitRoundInv(s, 0);
    assert 3 in s.all && Matches(s, 3, 0, false);
    assert forall c :: c in s.procs ==> !Matches(s, c, 0, true);
  }

  /** 4 exits and hangs: its parent 3 is not waiting. */
  lemma SnapExit(s: State, kid: Proc, n: nat)
    requires Inv(s) && Snap(s, Init(Waiting), [kid, Proc(5, 4, 3, Active, 0, Normal)], n)
    requires kid == Proc(4, INIT_PID, INIT_ID, Active, 0, Normal)
    ensures Enabled(s, ExitAdopt(4, 7))
    ensures var s1 := Apply(s, ExitAdopt(4, 7));
            && Inv(s1) && Enabled(s1, ExitHang(4)) && Inv(Apply(s1, ExitHang(4)))
            && Snap(Apply(s1, ExitHang(4)), Init(Waiting), [kid, Proc(5, 4, 3, Hanging, 7, Exiting)], n)
  {
    hide PidsOk, ParentsOk, WaitersOk, HistoryOk, ListOk;
    StepInv(s, ExitAdopt(4, 7));
    StepInv(Apply(s, ExitAdopt(4, 7)), ExitHang(4));
  }

  /** 3 exits: init, asleep, has a hanging child. */
  lemma SnapAdopt(s: State, n: nat)
    requires Inv(s) && Snap(s, Init(Waiting), [Proc(4, INIT_PID, INIT_ID, Active, 0, Normal), Proc(5, 4, 3, Hanging, 7, Exiting)], n)
    ensures Enabled(s, ExitAdopt(3, 0)) && Inv(Apply(s, ExitAdopt(3, 0))) && !NoLost(Apply(s, ExitAdopt(3, 0)))
  {
    hide PidsOk, ParentsOk, WaitersOk, HistoryOk, ListOk;
    StepInv(s, ExitAdopt(3, 0));
    assert HangingChild(Apply(s, ExitAdopt(3, 0)), 4, 0);
  }

  lemma {:induction false} RunSplit(s: State, es: seq<Event>, e: Event)
    requires Inv(s) && CanRun(s, es) && Inv(RunFrom(s, es)) && Enabled(RunFrom(s, es), e)
    ensures CanRun(s, es + [e]) && RunFrom(s, es + [e]) == Apply(RunFrom(s, es), e)
    decreases |es|
  {
    hide Inv, Enabled, Apply;
    if es == [] {
      assert es + [e] == [e] && [e][1..] == [];
      StepInv(s, e);
    } else {
      StepInv(s, es[0]);
      assert (es + [e])[1..] == es[1..] + [e];
      RunSplit(Apply(s, es[0]), es[1..], e);
    }
  }

  /** A run from the start in which init ends up asleep beside a child to reap. */
  lemma InitCanMissAChild()
    ensures var es := [ForkPid(0)] + [ForkInsert(0, 3)] + [Wait(0)] + [ForkPid(3)] + [ForkInsert(3, 4)]
                      + [ExitAdopt(4, 7)] + [ExitHang(4)] + [ExitAdopt(3, 0)];
            (StartInv(); CanRun(START, es) && !NoLost(RunFrom(START, es)))
  {
    hide Inv, Enabled, Snap, NoLost, ForkBegin, ForkEnd, ExitBegin, ExitEnd, WaitRound;
    StartInv();
    StartSnap();
    SnapFork(START, Init(Active), [], 3, 0);
    RunSplit(START, [], ForkPid(0));
    var es := [ForkPid(0)];
    assert [] + es == es;
    RunSplit(START, es, ForkInsert(0, 3));
    es := es + [ForkInsert(0, 3)];
    var kid := Proc(4, INIT_PID, INIT_ID, Active, 0, Normal);
    assert [] + [kid] == [kid];
    var s2 := RunFrom(START, es);
    SnapWait(s2, kid, 4);
    RunSplit(START, es, Wait(0));
    es := es + [Wait(0)];
    var s3 := RunFrom(START, es);
    SnapKid(s3, kid, 4);
    SnapFork(s3, Init(Waiting), [kid], 4, 3);
    RunSplit(START, es, ForkPid(3));
    es := es + [ForkPid(3)];
    RunSplit(START, es, ForkInsert(3, 4));
    es := es + [ForkInsert(3, 4)];
    var s5, kid2 := RunFrom(START, es), Proc(5, 4, 3, Active, 0, Normal);
    assert [kid] + [kid2] == [kid, kid2];
    SnapExit(s5, kid, 5);
    RunSplit(START, es, ExitAdopt(4, 7));
    es := es + [ExitAdopt(4, 7)];
    RunSplit(START, es, ExitHang(4));
    es := es + [ExitHang(4)];
    SnapAdopt(RunFrom(START, es), 5);
    RunSplit(START, es, ExitAdopt(3, 0));
  }

  lemma StartSnap()
    ensures Snap(START, Init(Active), [], 3) && CanCall(START, 0) && START.procs[0].code == 0
  {
  }

  lemma SnapKid(s: State, kid: Proc, n: nat)
    requires Snap(s, Init(Waiting), [kid], n) && kid == Proc(4, INIT_PID, INIT_ID, Active, 0, Normal)
    ensures CanCall(s, 3) && s.procs[3] == kid
  {
    assert [kid][0] == kid;
  }

  lemma DistinctPids(s: State)
    requires |s.bits| == MAX_PIDS && (forall a :: a in s.procs ==> !s.procs[a].phase.Forking? && PidTaken(s, s.procs[a].pid))
    requires forall a, b :: a in s.procs && b in s.procs && a != b ==> s.procs[a].pid != s.procs[b].pid
    ensures PidsOk(s)
  {
    hide PidTaken;
  }

  // ---- the code ------------------------------------------------------------

  class Table {
    var s: State

    constructor ()
      ensures Inv(s) && s == START
    {
      s := START;
      new;
      StartInv();
    }

    /** fork up to the child's pid. With no pid left allocate_pid goes on from bit
        -1: it sets a bit far outside the map and hands out pid 0 (`wild`), and the
        model stops there. */
    method ForkTakePid(a: nat) returns (pid: nat, wild: bool)
      requires Inv(s) && CanCall(s, a)
      modifies this
      ensures wild <==> forall k :: 0 <= k < |old(s).bits| ==> old(s).bits[k]
      ensures wild ==> s == old(s) && pid == 0
      ensures !wild ==> FirstRun(old(s).bits, 1) >= 0 && Inv(s) && s == ForkBegin(old(s), a)
      ensures !wild ==> 1 <= pid <= |old(s).bits| && !old(s).bits[pid - 1] && (forall k :: 0 <= k < pid - 1 ==> old(s).bits[k])
      ensures !wild ==> s.bits == old(s).bits[pid - 1 := true] && a in s.procs && s.procs[a].phase == Forking(pid)
      ensures !wild ==> !PidTaken(old(s), pid) && forall b :: b in s.procs ==> s.procs[b].pid != pid && s.procs[b].ppid != pid
    {
      hide PidsOk, ParentsOk, WaitersOk, HistoryOk, ListOk, FirstRun;
      var bitIdx := FirstRun(s.bits, 1);
      assert forall k: nat :: k < |s.bits| ==> s.bits[k] || ClearRun(s.bits, k, 1);
      wild := bitIdx == -1;
      if wild {
        pid := 0;
        return;
      }
      assert !s.bits[bitIdx];
      forall k | 0 <= k < bitIdx ensures s.bits[k] {
        assert !s.bits[k] <==> ClearRun(s.bits, k, 1);
      }
      ForkBeginInv(s, a);
      FreshPid(s, a);
      s := s.(bits := s.bits[bitIdx := true]);
      pid := bitIdx + 1;
      s := Upd(s, a, s.procs[a].(phase := Forking(pid)));
    }

    /** list_traversal with init_adopt_a_child. */
    method AdoptChildren(pid: nat)
      requires ListOk(s)
      modifies this
      ensures s == old(s).(procs := AdoptAll(old(s).procs, pid))
    {
      ghost var s0 := s;
      for i := 0 to |s.all|
        invariant s == s0.(procs := s.procs) && s.procs.Keys == s0.procs.Keys
        invariant forall j :: 0 <= j < i ==> s.procs[s0.all[j]] == Adopted(s0.procs[s0.all[j]], pid)
        invariant forall j :: i <= j < |s0.all| ==> s.procs[s0.all[j]] == s0.procs[s0.all[j]]
      {
        var b := s.all[i];
        if s.procs[b].ppid == pid {
          s := Upd(s, b, s.procs[b].(ppid := INIT_PID, parent := INIT_ID));
        }
      }
      forall b | b in s0.procs
        ensures s.procs[b] == Adopted(s0.procs[b], pid)
      {
        assert b in s0.all;
      }
      assert s.procs == AdoptAll(s0.procs, pid);
    }

    /** exit up to the point where it starts to give its resources back. */
    method SysExitAdopt(a: nat, status: int)
      requires Inv(s) && CanCall(s, a) && s.procs[a].ppid != -1
      modifies this
      ensures Inv(s) && s == ExitBegin(old(s), a, status)
      ensures a in s.procs && -128 <= s.procs[a].code < 128 && (status - s.procs[a].code) % 256 == 0
      ensures s.procs.Keys == old(s).procs.Keys && s.all == old(s).all && s.bits == old(s).bits
      ensures forall b :: b in s.procs && b != a ==>
        var p, q := old(s).procs[b], s.procs[b];
        if p.ppid == old(s).procs[a].pid then q == p.(ppid := INIT_PID, parent := INIT_ID) else q == p
    {
      hide PidsOk, ParentsOk, WaitersOk, HistoryOk, Int8;
      ExitBeginInv(s, a, status);
      AdoptKeys(s, a);
      var pid := s.procs[a].pid;
      AdoptChildren(pid);
      s := Upd(s, a, s.procs[a].(code := Int8(status), phase := Exiting)).(exited := s.exited[a := Int8(status)]);
    }

    /** pid2thread. */
    method FindPid(pid: int) returns (r: int)
      requires ListOk(s)
      ensures -1 <= r < |s.all|
      ensures r >= 0 ==> s.procs[s.all[r]].pid == pid
      ensures r == -1 ==> forall b :: b in s.procs ==> s.procs[b].pid != pid
    {
      for i := 0 to |s.all|
        invariant forall j :: 0 <= j < i ==> s.procs[s.all[j]].pid != pid
      {
        if s.procs[s.all[i]].pid == pid {
          return i;
        }
      }
      r := -1;
      forall b | b in s.procs
        ensures s.procs[b].pid != pid
      {
        assert b in s.all;
      }
    }

    /** The end of exit. The parent is looked up by number and found. */
    method SysExitHang(a: nat)
      requires Inv(s) && a in s.procs && s.procs[a].phase.Exiting? && !s.procs[a].st.Hanging?
      modifies this
      ensures Inv(s) && s == ExitEnd(old(s), a)
      ensures s.procs.Keys == old(s).procs.Keys && s.procs[a] == old(s).procs[a].(st := Hanging)
      ensures forall b :: b in s.procs && b != a ==>
        var p, q := old(s).procs[b], s.procs[b];
        if p.pid == old(s).procs[a].ppid && p.st.Waiting? then q == p.(st := Active) else q == p
    {
      hide PidsOk, ParentsOk, WaitersOk, HistoryOk;
      ExitEndInv(s, a);
      ParentFound(s, a);
      var i := FindPid(s.procs[a].ppid);
      assert i >= 0;
      var parent := s.all[i];
      if s.procs[parent].st.Waiting? {
        s := Upd(s, parent, s.procs[parent].(st := Active));
      }
      s := Upd(s, a, s.procs[a].(st := Hanging));
    }

    /** list_traversal with find_hanging_child or find_child. */
    method Traverse(a: nat, hanging: bool) returns (r: int)
      ensures r == First(s, s.all, a, hanging)
    {
      for i := 0 to |s.all|
        invariant forall j :: 0 <= j < i ==> !Matches(s, s.all[j], a, hanging)
      {
        if Matches(s, s.all[i], a, hanging) {
          return i;
        }
      }
      r := -1;
    }

    /** One round of sys_wait's loop. */
    method SysWait(a: nat) returns (r: WaitResult)
      requires Inv(s) && CanCall(s, a)
      modifies this
      ensures Inv(s) && s == Apply(old(s), Wait(a))
      ensures r == (WaitRoundInv(old(s), a); WaitRound(old(s), a).1)
    {
      hide PidsOk, ParentsOk, WaitersOk, HistoryOk, First, ListOk, Reap;
      WaitRoundInv(s, a);
      var i := Traverse(a, true);
      if i >= 0 {
        var c := s.all[i];
        r := Child(s.procs[c].pid, s.procs[c].code);
        s := Reap(s, c);
        return;
      }
      var j := Traverse(a, false);
      if j == -1 {
        return NoChild;
      }
      s := Upd(s, a, s.procs[a].(st := Waiting));
      r := Sleeps;
    }
  }

  lemma AdoptKeys(s: State, a: nat)
    requires a in s.procs
    ensures a in AdoptAll(s.procs, s.procs[a].pid)
  {
  }

  lemma FreshPid(s: State, a: nat)
    requires Inv(s) && CanCall(s, a) && FirstRun(s.bits, 1) >= 0
    ensures var s' := ForkBegin(s, a);
            var pid := FirstRun(s.bits, 1) + 1;
            !PidTaken(s, pid) && forall b :: b in s'.procs ==> s'.procs[b].pid != pid && s'.procs[b].ppid != pid
  {
    hide HistoryOk, WaitersOk, ListOk, FirstRun;
    ForkBeginInv(s, a);
    NoChildYet(ForkBegin(s, a), a);
    assert ClearRun(s.bits, FirstRun(s.bits, 1), 1);
  }

  lemma ParentFound(s: State, a: nat)
    requires Inv(s) && a in s.procs && s.procs[a].phase.Exiting?
    ensures s.procs[a].parent in s.procs && s.procs[s.procs[a].parent].pid == s.procs[a].ppid
    ensures forall b :: b in s.procs && s.procs[b].pid == s.procs[a].ppid ==> b == s.procs[a].parent
    ensures s.procs[a].parent != a
  {
    hide HistoryOk, WaitersOk, PidTaken;
    assert ParentOk(s, a);
  }
}
