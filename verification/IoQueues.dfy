/** device/ioqueue.c and shell/pipe.c: the ring buffer, pipes, and the sleeping
    and waking of producers and consumers. */
module IoQueues {
  import opened Common

  const BUFSIZE: nat := 2048
  const CAPACITY: nat := 2047

  function NextPos(pos: nat): nat { (pos + 1) % BUFSIZE }

  /** The bytes between the read and the write cursor, oldest first. */
  function Items(buf: seq<char>, head: nat, tail: nat): seq<char>
    requires |buf| == BUFSIZE && head < BUFSIZE && tail < BUFSIZE
  {
    if tail <= head then buf[tail..head] else buf[tail..] + buf[..head]
  }

  lemma NextPosIs(pos: nat)
    requires pos < BUFSIZE
    ensures NextPos(pos) == if pos + 1 == BUFSIZE then 0 else pos + 1
  {
  }

  lemma PutItems(buf: seq<char>, head: nat, tail: nat, byte: char)
    requires |buf| == BUFSIZE && head < BUFSIZE && tail < BUFSIZE && NextPos(head) != tail
    ensures Items(buf[head := byte], NextPos(head), tail) == Items(buf, head, tail) + [byte]
  {
    hide NextPos;
    NextPosIs(head);
    var b := buf[head := byte];
    if head + 1 == BUFSIZE {
      assert b[tail..] == buf[tail..head] + [byte] && b[..0] == [];
    } else if tail <= head {
      assert b[tail..head + 1] == buf[tail..head] + [byte];
    } else {
      assert b[..head + 1] == buf[..head] + [byte] && b[tail..] == buf[tail..];
    }
  }

  lemma GetItems(buf: seq<char>, head: nat, tail: nat)
    requires |buf| == BUFSIZE && head < BUFSIZE && tail < BUFSIZE && head != tail
    ensures Items(buf, head, tail) == [buf[tail]] + Items(buf, head, NextPos(tail))
  {
    hide NextPos;
    NextPosIs(tail);
    if tail < head {
      Front(buf, tail, head);
    } else {
      Front(buf, tail, BUFSIZE);
      assert buf[tail..] == buf[tail..BUFSIZE];
      if tail + 1 == BUFSIZE {
        assert buf[tail + 1..BUFSIZE] == [] && buf[0..head] == buf[..head];
      } else {
        assert buf[tail + 1..] == buf[tail + 1..BUFSIZE];
      }
    }
  }

  lemma Front(buf: seq<char>, a: nat, b: nat)
    requires a < b <= |buf|
    ensures buf[a..b] == [buf[a]] + buf[a + 1..b]
  {
  }

  lemma MoveByte(was: string, data: string, byte: char, rest: string)
    requires was == data + ([byte] + rest)
    ensures was == (data + [byte]) + rest
  {
  }

  class IoQueue {
    const buf: array<char>
    var head: nat
    var tail: nat

    ghost predicate Valid()
      reads this
    {
      buf.Length == BUFSIZE && head < BUFSIZE && tail < BUFSIZE
    }

    ghost function Contents(): (s: seq<char>)
      requires Valid()
      reads this, buf
      ensures |s| <= CAPACITY
    {
      Items(buf[..], head, tail)
    }

    constructor ()
      ensures Valid() && Contents() == []
    {
      buf := new char[BUFSIZE];
      head, tail := 0, 0;
    }

    method Full() returns (r: bool)
      requires Valid()
      ensures r <==> |Contents()| == CAPACITY
    {
      r := NextPos(head) == tail;
    }

    method Empty() returns (r: bool)
      requires Valid()
      ensures r <==> Contents() == []
    {
      r := head == tail;
    }

    method Length() returns (len: nat)
      requires Valid()
      ensures len == |Contents()|
    {
      if head >= tail {
        len := head - tail;
      } else {
        len := BUFSIZE - (tail - head);
      }
    }

    ghost function AsRing(): Ring
      reads this, buf
    {
      Ring(buf[..], head, tail)
    }

    /** ioq_putchar past its wait loop, on the buffer: the step `Append` of the queue and its users. */
    method PutChar(byte: char)
      requires Valid() && |Contents()| < CAPACITY
      modifies this`head, buf
      ensures Valid() && Contents() == old(Contents()) + [byte]
      ensures AsRing() == RingPut(old(AsRing()), byte)
    {
      PutItems(buf[..], head, tail, byte);
      buf[head] := byte;
      head := NextPos(head);
    }

    /** ioq_getchar past its wait loop, on the buffer: the step `Take`. */
    method GetChar() returns (byte: char)
      requires Valid() && Contents() != []
      modifies this`tail
      ensures Valid() && old(Contents()) == [byte] + Contents()
      ensures AsRing() == RingGet(old(AsRing())) && byte == old(buf[tail])
    {
      GetItems(buf[..], head, tail);
      byte := buf[tail];
      tail := NextPos(tail);
    }

    /** pipe_read takes what is there, up to `count`, and never finds the buffer
        empty on the way. */
    method PipeRead(count: nat) returns (data: string)
      requires Valid()
      modifies this`tail
      ensures Valid() && old(Contents()) == data + Contents()
      ensures |data| == if count < |old(Contents())| then count else |old(Contents())|
    {
      hide Items;
      var len := Length();
      var size := if len > count then count else len;
      data := "";
      ghost var was := Contents();
      while |data| < size
        invariant Valid() && |data| <= size && was == data + Contents()
      {
        var byte := GetChar();
        MoveByte(was, data, byte, Contents());
        data := data + [byte];
      }
    }

    /** pipe_write counts one free slot too many. It stops in ioq_putchar's wait
        loop, with the buffer full, exactly when the data does not fit in what is
        really free; otherwise it writes everything. */
    method PipeWrite(data: string) returns (written: nat, blocked: bool)
      requires Valid()
      modifies this`head, buf
      ensures Valid() && written <= |data| && Contents() == old(Contents()) + data[..written]
      ensures blocked <==> |data| > CAPACITY - |old(Contents())|
      ensures !blocked ==> written == |data|
      ensures blocked ==> |Contents()| == CAPACITY
    {
      var len := Length();
      var left := BUFSIZE - len;
      var size := if left > |data| then |data| else left;
      written := 0;
      ghost var was := Contents();
      while written < size
        invariant Valid() && written <= size && Contents() == was + data[..written]
      {
        var full := Full();
        if full {
          return written, true;
        }
        PutChar(data[written]);
        assert data[..written + 1] == data[..written] + [data[written]];
        written := written + 1;
      }
      blocked := false;
    }
  }

  // ---- any number of producers and consumers -------------------------------

  /** The ring as a value. */
  datatype Ring = Ring(buf: seq<char>, head: nat, tail: nat)

  predicate RingOk(r: Ring) { |r.buf| == BUFSIZE && r.head < BUFSIZE && r.tail < BUFSIZE }

  function Bytes(r: Ring): (s: seq<char>)
    requires RingOk(r)
    ensures |s| <= CAPACITY && (s == [] <==> r.head == r.tail)
  {
    Items(r.buf, r.head, r.tail)
  }

  predicate IsFull(r: Ring) { NextPos(r.head) == r.tail }

  predicate IsEmpty(r: Ring) { r.head == r.tail }

  function RingPut(r: Ring, byte: char): Ring
    requires RingOk(r)
  {
    Ring(r.buf[r.head := byte], NextPos(r.head), r.tail)
  }

  function RingGet(r: Ring): Ring { r.(tail := NextPos(r.tail)) }

  lemma RingIsFull(r: Ring)
    requires RingOk(r)
    ensures IsFull(r) <==> |Bytes(r)| == CAPACITY
  {
  }

  lemma RingPuts(r: Ring, byte: char)
    requires RingOk(r) && !IsFull(r)
    ensures RingOk(RingPut(r, byte)) && Bytes(RingPut(r, byte)) == Bytes(r) + [byte]
  {
    hide Items;
    PutItems(r.buf, r.head, r.tail, byte);
  }

  lemma RingGets(r: Ring)
    requires RingOk(r) && !IsEmpty(r)
    ensures RingOk(RingGet(r)) && Bytes(r) == [r.buf[r.tail]] + Bytes(RingGet(r))
  {
    hide Items;
    GetItems(r.buf, r.head, r.tail);
  }

  /** What a thread is inside a call for. */
  datatype Job = Getting | Putting(byte: char)

  /** Outside both calls; waiting for the queue's lock after finding the buffer
      empty or full; asleep in its slot with the lock; or woken, about to release
      the lock and test again. */
  datatype Pc = Out | Want(job: Job) | Asleep(job: Job) | Woken(job: Job)

  /** The queue and its users. `put` and `got` record the bytes so far, `failed`
      that ioq_wait found its slot taken. */
  datatype Queue = Queue(ring: Ring, lock: Option<nat>, consumer: Option<nat>, producer: Option<nat>,
                         pc: map<nat, Pc>, put: seq<char>, got: seq<char>, failed: bool)

  /** A key stroke, whose handler looks whether there is room and does not block;
      a call of ioq_getchar or ioq_putchar; or a further step inside one. */
  datatype Event = Key(byte: char) | Get(t: nat) | Put(t: nat, byte: char) | Lock(t: nat) | Resume(t: nat)

  function Wake(pc: map<nat, Pc>, slot: Option<nat>): map<nat, Pc> {
    if slot.Some? && slot.value in pc && pc[slot.value].Asleep? then pc[slot.value := Woken(pc[slot.value].job)] else pc
  }

  /** ioq_wait with the lock just taken; the buffer is not looked at again. */
  function Register(q: Queue, t: nat, job: Job): Queue {
    var r := q.(lock := Some(t), pc := q.pc[t := Asleep(job)]);
    if job.Getting? then r.(consumer := Some(t), failed := q.failed || q.consumer.Some?)
    else r.(producer := Some(t), failed := q.failed || q.producer.Some?)
  }

  function Append(q: Queue, byte: char): Queue
    requires RingOk(q.ring)
  {
    q.(ring := RingPut(q.ring, byte), put := q.put + [byte], consumer := None, pc := Wake(q.pc, q.consumer))
  }

  function Take(q: Queue): Queue
    requires RingOk(q.ring)
  {
    q.(ring := RingGet(q.ring), got := q.got + [q.ring.buf[q.ring.tail]], producer := None, pc := Wake(q.pc, q.producer))
  }

  /** The test at the head of either loop: do it, or wait under the lock. */
  function Test(q: Queue, t: nat, job: Job): Queue
    requires RingOk(q.ring)
  {
    if job.Getting? && !IsEmpty(q.ring) then Take(q.(pc := q.pc[t := Out]))
    else if job.Putting? && !IsFull(q.ring) then Append(q.(pc := q.pc[t := Out]), job.byte)
    else if q.lock == None then Register(q, t, job)
    else q.(pc := q.pc[t := Want(job)])
  }

  predicate Enabled(q: Queue, e: Event) {
    match e
    case Key(_) => true
    case Get(t) => t in q.pc && q.pc[t].Out?
    case Put(t, _) => t in q.pc && q.pc[t].Out?
    case Lock(t) => t in q.pc && q.pc[t].Want? && q.lock == None
    case Resume(t) => t in q.pc && q.pc[t].Woken?
  }

  function Apply(q: Queue, e: Event): Queue
    requires RingOk(q.ring) && Enabled(q, e)
  {
    match e
    case Key(byte) => if IsFull(q.ring) then q else Append(q, byte)
    case Get(t) => Test(q, t, Getting)
    case Put(t, byte) => Test(q, t, Putting(byte))
    case Lock(t) => Register(q, t, q.pc[t].job)
    case Resume(t) => Test(q.(lock := None), t, q.pc[t].job)
  }

  /** The lock is with the one thread that sleeps or has been woken, and the slots name it while it sleeps. */
  predicate SlotsOk(q: Queue) {
    && (q.lock.Some? ==> q.lock.value in q.pc && (q.pc[q.lock.value].Asleep? || q.pc[q.lock.value].Woken?))
    && (forall t :: t in q.pc && (q.pc[t].Asleep? || q.pc[t].Woken?) ==> q.lock == Some(t))
    && (forall t :: t in q.pc ==> (q.consumer == Some(t) <==> q.pc[t] == Asleep(Getting)))
    && (forall t :: t in q.pc ==> (q.producer == Some(t) <==> q.pc[t].Asleep? && q.pc[t].job.Putting?))
    && (q.consumer.Some? ==> q.consumer.value in q.pc) && (q.producer.Some? ==> q.producer.value in q.pc)
  }

  /** The ring refines a first-in-first-out queue of 2047 bytes: what went in is what came out and what is there. */
  predicate QueueOk(q: Queue) {
    && RingOk(q.ring) && !q.failed && SlotsOk(q)
    && q.put == q.got + Bytes(q.ring)
  }

  /** ioq_wait's assertion, for both slots: whoever has just taken the lock finds nobody registered. */
  lemma WaiterSlotFree(q: Queue)
    requires SlotsOk(q) && q.lock == None
    ensures q.consumer == None && q.producer == None
  {
  }

  lemma AppendOk(q: Queue, byte: char)
    requires QueueOk(q) && !IsFull(q.ring)
    ensures QueueOk(Append(q, byte))
  {
    hide Items, Bytes;
    RingPuts(q.ring, byte);
    assert q.got + (Bytes(q.ring) + [byte]) == (q.got + Bytes(q.ring)) + [byte];
  }

  lemma TakeOk(q: Queue)
    requires QueueOk(q) && !IsEmpty(q.ring)
    ensures QueueOk(Take(q))
  {
    hide Items, Bytes;
    RingGets(q.ring);
    var b := q.ring.buf[q.ring.tail];
    assert q.got + ([b] + Bytes(RingGet(q.ring))) == (q.got + [b]) + Bytes(RingGet(q.ring));
  }

  lemma TestOk(q: Queue, t: nat, job: Job)
    requires QueueOk(q) && t in q.pc && (q.pc[t].Out? || q.pc[t].Want?)
    ensures QueueOk(Test(q, t, job))
  {
    hide Items, Bytes, SlotsOk, Take, Append, Register;
    PcOk(q, t, Out);
    if job.Getting? && !IsEmpty(q.ring) {
      TakeOk(q.(pc := q.pc[t := Out]));
    } else if job.Putting? && !IsFull(q.ring) {
      AppendOk(q.(pc := q.pc[t := Out]), job.byte);
    } else if q.lock == None {
      RegisterOk(q, t, job);
    } else {
      PcOk(q, t, Want(job));
    }
  }

  lemma PcOk(q: Queue, t: nat, x: Pc)
    requires QueueOk(q) && t in q.pc && (q.pc[t].Out? || q.pc[t].Want?) && (x.Out? || x.Want?)
    ensures QueueOk(q.(pc := q.pc[t := x]))
  {
    hide Items, Bytes;
  }

  lemma RegisterOk(q: Queue, t: nat, job: Job)
    requires QueueOk(q) && t in q.pc && (q.pc[t].Out? || q.pc[t].Want?) && q.lock == None
    ensures QueueOk(Register(q, t, job))
  {
    hide Items, Bytes;
    WaiterSlotFree(q);
  }

  lemma StepOk(q: Queue, e: Event)
    requires QueueOk(q) && Enabled(q, e)
    ensures QueueOk(Apply(q, e))
  {
    hide Items, Bytes, Append, Test;
    match e
    case Key(byte) => if !IsFull(q.ring) { AppendOk(q, byte); }
    case Get(t) => TestOk(q, t, Getting);
    case Put(t, byte) => TestOk(q, t, Putting(byte));
    case Lock(t) => WaiterSlotFree(q);
    case Resume(t) =>
      var q1 := q.(lock := None, pc := q.pc[t := Want(q.pc[t].job)]);
      assert QueueOk(q1);
      TestOk(q1, t, q.pc[t].job);
      SameTest(q.(lock := None), q1, t, q.pc[t].job);
  }

  /** A test overwrites the tester's own control point. */
  lemma SameTest(q: Queue, q1: Queue, t: nat, job: Job)
    requires RingOk(q.ring) && t in q.pc && t in q1.pc && q1 == q.(pc := q.pc[t := q1.pc[t]])
    requires q.consumer != Some(t) && q.producer != Some(t)
    ensures Test(q, t, job) == Test(q1, t, job)
  {
    assert q1.pc[t := Out] == q.pc[t := Out];
    assert q1.pc[t := Asleep(job)] == q.pc[t := Asleep(job)] && q1.pc[t := Want(job)] == q.pc[t := Want(job)];
  }

  /** The bytes a step puts and gets: a key's or a caller's own byte goes in iff
      there is room, and the oldest byte comes out iff there is one. */
  ghost predicate Moves(q: Queue, w: Queue, job: Job)
    requires RingOk(q.ring)
  {
    match job
    case Putting(byte) => w.got == q.got && w.put == if |Bytes(q.ring)| < CAPACITY then q.put + [byte] else q.put
    case Getting => w.put == q.put && w.got == if Bytes(q.ring) != [] then q.got + [Bytes(q.ring)[0]] else q.got
  }

  lemma MovesExactly(q: Queue, e: Event)
    requires QueueOk(q) && Enabled(q, e)
    ensures match e
      case Key(byte) => Moves(q, Apply(q, e), Putting(byte))
      case Get(t) => Moves(q, Apply(q, e), Getting)
      case Put(t, byte) => Moves(q, Apply(q, e), Putting(byte))
      case Lock(t) => Apply(q, e).put == q.put && Apply(q, e).got == q.got
      case Resume(t) => Moves(q, Apply(q, e), q.pc[t].job)
  {
    hide Items, Bytes, SlotsOk;
    RingIsFull(q.ring);
    RingIsEmpty(q.ring);
    if !IsEmpty(q.ring) { RingGets(q.ring); }
  }

  lemma RingIsEmpty(r: Ring)
    requires RingOk(r)
    ensures IsEmpty(r) <==> Bytes(r) == []
  {
  }

  /** `consumers` call ioq_getchar only, `producers` ioq_putchar only. */
  predicate Allowed(e: Event, consumers: set<nat>, producers: set<nat>) {
    match e
    case Get(t) => t in consumers
    case Put(t, _) => t in producers
    case _ => true
  }

  ghost predicate Reach(q: Queue, es: seq<Event>, q': Queue, consumers: set<nat>, producers: set<nat>)
    requires QueueOk(q)
    decreases |es|
  {
    if es == [] then q' == q
    else Allowed(es[0], consumers, producers) && Enabled(q, es[0]) && (StepOk(q, es[0]); Reach(Apply(q, es[0]), es[1..], q', consumers, producers))
  }

  /** A queue just initialised. */
  function Fresh(threads: set<nat>, buf: seq<char>): Queue {
    Queue(Ring(buf, 0, 0), None, None, None, map t | t in threads :: Out, [], [], false)
  }

  lemma FreshOk(threads: set<nat>, buf: seq<char>)
    requires |buf| == BUFSIZE
    ensures QueueOk(Fresh(threads, buf))
  {
    assert Bytes(Fresh(threads, buf).ring) == [];
  }

  /** For every interleaving of producers and consumers: the bytes put are those
      got followed by those in the buffer, never more than 2047, and no
      assertion on the waiting slots fails. */
  lemma {:induction false} FifoAlways(q: Queue, es: seq<Event>, q': Queue, consumers: set<nat>, producers: set<nat>)
    requires QueueOk(q) && Reach(q, es, q', consumers, producers)
    ensures QueueOk(q') && q'.put == q'.got + Bytes(q'.ring) && |Bytes(q'.ring)| <= CAPACITY && !q'.failed
    decreases |es|
  {
    hide Apply, Enabled, Allowed, SlotsOk;
    if es != [] {
      StepOk(q, es[0]);
      FifoAlways(Apply(q, es[0]), es[1..], q', consumers, producers);
    }
  }

  // ---- sleeping beside a byte ----------------------------------------------

  /** A consumer is registered, and asleep, although there is a byte. */
  predicate Beside(q: Queue)
    requires RingOk(q.ring)
  {
    q.consumer.Some? && Bytes(q.ring) != []
  }

  /** A producer is, although there is room. */
  predicate Crowded(q: Queue)
    requires RingOk(q.ring)
  {
    q.producer.Some? && |Bytes(q.ring)| < CAPACITY
  }

  /** The step that breaks it is exactly taking the lock, after having waited for
      it, with a byte in the buffer by then: the test is not repeated. */
  lemma BesideExactly(q: Queue, e: Event)
    requires QueueOk(q) && Enabled(q, e) && !Beside(q)
    ensures QueueOk(Apply(q, e))
    ensures Beside(Apply(q, e)) <==> e.Lock? && q.pc[e.t].job.Getting? && Bytes(q.ring) != []
  {
    hide Items;
    StepOk(q, e);
    if e.Lock? { WaiterSlotFree(q); }
  }

  /** The same for producers. */
  lemma CrowdedExactly(q: Queue, e: Event)
    requires QueueOk(q) && Enabled(q, e) && !Crowded(q)
    ensures QueueOk(Apply(q, e))
    ensures Crowded(Apply(q, e)) <==> e.Lock? && q.pc[e.t].job.Putting? && |Bytes(q.ring)| < CAPACITY
  {
    hide Items, Bytes;
    StepOk(q, e);
    RingIsFull(q.ring);
    if e.Lock? { WaiterSlotFree(q); }
  }

  /** No run of these users ever leaves a consumer asleep beside a byte. */
  ghost predicate NeverBeside(consumers: set<nat>, producers: set<nat>, buf: seq<char>)
    requires |buf| == BUFSIZE
  {
    FreshOk(consumers + producers, buf);
    forall es: seq<Event>, q: Queue ::
      Reach(Fresh(consumers + producers, buf), es, q, consumers, producers) ==> RingOk(q.ring) && !Beside(q)
  }

  /** Only consumers get, and the queue's only user, if it has just one, never waits for the lock. */
  predicate Alone(q: Queue, consumers: set<nat>, producers: set<nat>) {
    && q.pc.Keys == consumers + producers
    && (forall t :: t in q.pc && !q.pc[t].Out? && q.pc[t].job.Getting? ==> t in consumers)
    && (consumers != {} ==> forall t :: t in q.pc ==> !q.pc[t].Want?)
  }

  lemma AloneStep(q: Queue, e: Event, consumers: set<nat>, producers: set<nat>, x: nat)
    requires QueueOk(q) && Enabled(q, e) && Allowed(e, consumers, producers) && Alone(q, consumers, producers) && !Beside(q)
    requires consumers == {} || (consumers == {x} && producers <= {x})
    ensures QueueOk(Apply(q, e)) && Alone(Apply(q, e), consumers, producers) && !Beside(Apply(q, e))
  {
    hide Items, Bytes, Beside;
    BesideExactly(q, e);
    assert consumers != {} ==> forall t :: t in q.pc ==> t == x;
  }

  lemma {:induction false} AloneRun(q: Queue, es: seq<Event>, q': Queue, consumers: set<nat>, producers: set<nat>, x: nat)
    requires QueueOk(q) && Alone(q, consumers, producers) && !Beside(q)
    requires consumers == {} || (consumers == {x} && producers <= {x})
    requires Reach(q, es, q', consumers, producers)
    ensures RingOk(q'.ring) && !Beside(q')
    decreases |es|
  {
    hide Apply, Enabled, Allowed, SlotsOk, Alone, Beside;
    if es != [] {
      StepOk(q, es[0]);
      AloneStep(q, es[0], consumers, producers, x);
      AloneRun(Apply(q, es[0]), es[1..], q', consumers, producers, x);
    }
  }

  lemma {:induction false} ReachJoin(q: Queue, es: seq<Event>, q1: Queue, fs: seq<Event>, q2: Queue, consumers: set<nat>, producers: set<nat>)
    requires QueueOk(q) && Reach(q, es, q1, consumers, producers) && QueueOk(q1) && Reach(q1, fs, q2, consumers, producers)
    ensures Reach(q, es + fs, q2, consumers, producers)
    decreases |es|
  {
    hide Apply, Enabled, Allowed, SlotsOk;
    if es == [] {
      assert es + fs == fs;
    } else {
      StepOk(q, es[0]);
      assert (es + fs)[1..] == es[1..] + fs;
      ReachJoin(Apply(q, es[0]), es[1..], q1, fs, q2, consumers, producers);
    }
  }

  lemma ReachStep(q: Queue, es: seq<Event>, q1: Queue, e: Event, consumers: set<nat>, producers: set<nat>)
    requires QueueOk(q) && Reach(q, es, q1, consumers, producers) && QueueOk(q1) && Enabled(q1, e) && Allowed(e, consumers, producers)
    ensures QueueOk(Apply(q1, e)) && Reach(q, es + [e], Apply(q1, e), consumers, producers)
  {
    hide Apply, Enabled, Allowed, SlotsOk;
    StepOk(q1, e);
    assert [e][1..] == [];
    assert Reach(q1, [e], Apply(q1, e), consumers, producers);
    ReachJoin(q, es, q1, [e], Apply(q1, e), consumers, producers);
  }

  /** Everybody is outside but for `a` and `b`, and so many bytes are queued. */
  predicate Stage(q: Queue, threads: set<nat>, a: nat, pa: Pc, b: nat, pb: Pc, n: nat) {
    && QueueOk(q) && |Bytes(q.ring)| == n && a in threads && b in threads && a != b && q.pc.Keys == threads
    && q.pc[a] == pa && q.pc[b] == pb && forall t :: t in threads && t != a && t != b ==> q.pc[t] == Out
  }

  /** The lock is held iff one of the two is asleep or woken. */
  lemma StageLock(q: Queue, threads: set<nat>, a: nat, pa: Pc, b: nat, pb: Pc, n: nat)
    requires Stage(q, threads, a, pa, b, pb, n)
    ensures q.lock == None <==> !(pa.Asleep? || pa.Woken? || pb.Asleep? || pb.Woken?)
    ensures pa != Asleep(Getting) && pb != Asleep(Getting) ==> q.consumer == None
    ensures pa == Asleep(Getting) ==> q.consumer == Some(a)
  {
    hide Items, Bytes;
  }

  /** `a` asks for a byte. */
  lemma StageGet(q: Queue, threads: set<nat>, a: nat, b: nat, pb: Pc, n: nat)
    requires Stage(q, threads, a, Out, b, pb, n)
    ensures n == 0 && (pb.Out? || pb.Want?) ==> Stage(Apply(q, Get(a)), threads, a, Asleep(Getting), b, pb, 0)
    ensures n == 0 && (pb.Asleep? || pb.Woken?) ==> Stage(Apply(q, Get(a)), threads, a, Want(Getting), b, pb, 0)
    ensures n > 0 && pb.Asleep? && pb.job.Putting? ==> Stage(Apply(q, Get(a)), threads, a, Out, b, Woken(pb.job), n - 1)
    ensures n > 0 && !pb.Asleep? ==> Stage(Apply(q, Get(a)), threads, a, Out, b, pb, n - 1)
  {
    hide Items, Bytes;
    StepOk(q, Get(a));
    StageLock(q, threads, a, Out, b, pb, n);
    if n > 0 { RingGets(q.ring); }
  }

  /** `b` brings a byte while `a` is outside or waits for the lock. */
  lemma StagePut(q: Queue, threads: set<nat>, a: nat, b: nat, n: nat, byte: char)
    requires Stage(q, threads, a, Out, b, Out, n)
    ensures n < CAPACITY ==> Stage(Apply(q, Put(b, byte)), threads, a, Out, b, Out, n + 1)
    ensures n == CAPACITY ==> Stage(Apply(q, Put(b, byte)), threads, a, Out, b, Asleep(Putting(byte)), n)
  {
    hide Items, Bytes;
    StepOk(q, Put(b, byte));
    StageLock(q, threads, a, Out, b, Out, n);
    RingIsFull(q.ring);
    if n < CAPACITY { RingPuts(q.ring, byte); }
  }

  /** A key is struck. */
  lemma StageKey(q: Queue, threads: set<nat>, a: nat, pa: Pc, b: nat, n: nat)
    requires Stage(q, threads, a, pa, b, Want(Getting), n) && n < CAPACITY && (pa == Asleep(Getting) || pa.Woken?)
    ensures Stage(Apply(q, Key('x')), threads, a, Woken(pa.job), b, Want(Getting), n + 1)
  {
    hide Items, Bytes;
    StepOk(q, Key('x'));
    StageLock(q, threads, a, pa, b, Want(Getting), n);
    RingIsFull(q.ring);
    RingPuts(q.ring, 'x');
  }

  /** The woken one finds what it waited for; the other one then takes the lock. */
  lemma StageResume(q: Queue, threads: set<nat>, a: nat, pa: Pc, b: nat, n: nat)
    requires Stage(q, threads, a, pa, b, Want(Getting), n) && pa.Woken?
    requires if pa.job.Getting? then n >= 2 else n < CAPACITY
    ensures var m := if pa.job.Getting? then n - 1 else n + 1;
            var q1 := Apply(q, Resume(a));
            Stage(q1, threads, a, Out, b, Want(Getting), m) && Enabled(q1, Lock(b)) && QueueOk(Apply(q1, Lock(b))) && Beside(Apply(q1, Lock(b)))
  {
    hide Items, Bytes;
    StepOk(q, Resume(a));
    StageLock(q, threads, a, pa, b, Want(Getting), n);
    RingIsFull(q.ring);
    if pa.job.Getting? { RingGets(q.ring); } else { RingPuts(q.ring, pa.job.byte); }
    var q1 := Apply(q, Resume(a));
    StageLock(q1, threads, a, Out, b, Want(Getting), if pa.job.Getting? then n - 1 else n + 1);
    StepOk(q1, Lock(b));
  }

  /** From that stage on, one more run is the failure. */
  lemma StageFails(consumers: set<nat>, producers: set<nat>, buf: seq<char>, es: seq<Event>, q: Queue, a: nat, pa: Pc, b: nat, n: nat)
    requires |buf| == BUFSIZE && QueueOk(Fresh(consumers + producers, buf))
    requires Reach(Fresh(consumers + producers, buf), es, q, consumers, producers)
    requires Stage(q, consumers + producers, a, pa, b, Want(Getting), n) && pa.Woken?
    requires if pa.job.Getting? then n >= 2 else n < CAPACITY
    ensures !NeverBeside(consumers, producers, buf)
  {
    hide Items, Bytes, Reach, Apply, Beside;
    var q0 := Fresh(consumers + producers, buf);
    StageResume(q, consumers + producers, a, pa, b, n);
    ReachStep(q0, es, q, Resume(a), consumers, producers);
    ReachStep(q0, es + [Resume(a)], Apply(q, Resume(a)), Lock(b), consumers, producers);
  }

  /** Two consumers: one sleeps, the other waits for the lock; two keys later the
      first is on its way and the second goes to sleep beside the second byte. */
  lemma TwoConsumers(consumers: set<nat>, producers: set<nat>, buf: seq<char>, a: nat, b: nat)
    requires |buf| == BUFSIZE && a in consumers && b in consumers && a != b
    ensures !NeverBeside(consumers, producers, buf)
  {
    hide Items, Bytes, Reach, Apply, Fresh, QueueOk, NeverBeside;
    var threads := consumers + producers;
    var q0 := Fresh(threads, buf);
    StageFresh(threads, buf, a, b);
    StageOk(q0, threads, a, Out, b, Out, 0);
    ReachNone(q0, consumers, producers);
    StageGet(q0, threads, a, b, Out, 0);
    ReachStep(q0, [], q0, Get(a), consumers, producers);
    var q1 := Apply(q0, Get(a));
    StageSwap(q1, threads, a, Asleep(Getting), b, Out, 0);
    StageGet(q1, threads, b, a, Asleep(Getting), 0);
    ReachStep(q0, [] + [Get(a)], q1, Get(b), consumers, producers);
    var q2 := Apply(q1, Get(b));
    StageSwap(q2, threads, b, Want(Getting), a, Asleep(Getting), 0);
    StageKey(q2, threads, a, Asleep(Getting), b, 0);
    ReachStep(q0, [] + [Get(a)] + [Get(b)], q2, Key('x'), consumers, producers);
    var q3 := Apply(q2, Key('x'));
    StageOk(q3, threads, a, Woken(Getting), b, Want(Getting), 1);
    StageKey(q3, threads, a, Woken(Getting), b, 1);
    ReachStep(q0, [] + [Get(a)] + [Get(b)] + [Key('x')], q3, Key('x'), consumers, producers);
    var q4 := Apply(q3, Key('x'));
    StageFails(consumers, producers, buf, [] + [Get(a)] + [Get(b)] + [Key('x')] + [Key('x')], q4, a, Woken(Getting), b, 2);
  }

  lemma StageOk(q: Queue, threads: set<nat>, a: nat, pa: Pc, b: nat, pb: Pc, n: nat)
    requires Stage(q, threads, a, pa, b, pb, n)
    ensures QueueOk(q) && RingOk(q.ring)
  {
  }

  lemma StageSwap(q: Queue, threads: set<nat>, a: nat, pa: Pc, b: nat, pb: Pc, n: nat)
    requires Stage(q, threads, a, pa, b, pb, n)
    ensures QueueOk(q) && RingOk(q.ring) && Stage(q, threads, b, pb, a, pa, n)
  {
    hide SlotsOk, Bytes;
  }

  lemma StageFresh(threads: set<nat>, buf: seq<char>, a: nat, b: nat)
    requires |buf| == BUFSIZE && a in threads && b in threads && a != b
    ensures Stage(Fresh(threads, buf), threads, a, Out, b, Out, 0)
  {
    hide Items;
    FreshOk(threads, buf);
  }

  /** `b` fills the buffer up to `n` bytes. */
  lemma {:induction false} FillUp(consumers: set<nat>, producers: set<nat>, q0: Queue, es: seq<Event>, q: Queue, a: nat, b: nat, n: nat, m: nat)
    returns (fs: seq<Event>, q': Queue)
    requires QueueOk(q0) && Reach(q0, es, q, consumers, producers) && b in producers
    requires Stage(q, consumers + producers, a, Out, b, Out, n) && n <= m <= CAPACITY
    ensures Reach(q0, fs, q', consumers, producers) && Stage(q', consumers + producers, a, Out, b, Out, m)
    decreases m - n
  {
    hide Items, Bytes, Reach, Apply, QueueOk;
    if n == m {
      return es, q;
    }
    StageOk(q, consumers + producers, a, Out, b, Out, n);
    StagePut(q, consumers + producers, a, b, n, 'x');
    ReachStep(q0, es, q, Put(b, 'x'), consumers, producers);
    fs, q' := FillUp(consumers, producers, q0, es + [Put(b, 'x')], Apply(q, Put(b, 'x')), a, b, n + 1, m);
  }

  /** `a` empties it while `b`, woken, has not run yet. */
  lemma {:induction false} Drain(consumers: set<nat>, producers: set<nat>, q0: Queue, es: seq<Event>, q: Queue, a: nat, b: nat, pb: Pc, n: nat)
    returns (fs: seq<Event>, q': Queue)
    requires QueueOk(q0) && Reach(q0, es, q, consumers, producers) && a in consumers && pb.Woken?
    requires Stage(q, consumers + producers, a, Out, b, pb, n)
    ensures Reach(q0, fs, q', consumers, producers) && Stage(q', consumers + producers, a, Out, b, pb, 0)
    decreases n
  {
    hide Items, Bytes, Reach, Apply, QueueOk;
    if n == 0 {
      return es, q;
    }
    StageOk(q, consumers + producers, a, Out, b, pb, n);
    StageGet(q, consumers + producers, a, b, pb, n);
    ReachStep(q0, es, q, Get(a), consumers, producers);
    fs, q' := Drain(consumers, producers, q0, es + [Get(a)], Apply(q, Get(a)), a, b, pb, n - 1);
  }

  /** A consumer and a producer: the producer sleeps at the full buffer and is
      woken; before it runs the consumer empties the buffer and waits for the
      lock, and then goes to sleep beside the byte the producer has brought. */
  lemma BlockingProducer(consumers: set<nat>, producers: set<nat>, buf: seq<char>, a: nat, b: nat)
    requires |buf| == BUFSIZE && a in consumers && b in producers && a != b
    ensures !NeverBeside(consumers, producers, buf)
  {
    hide Items, Bytes, Reach, Apply, Fresh, QueueOk, NeverBeside;
    var threads := consumers + producers;
    var q0 := Fresh(threads, buf);
    StageFresh(threads, buf, a, b);
    StageOk(q0, threads, a, Out, b, Out, 0);
    ReachNone(q0, consumers, producers);
    var es1, q1 := FillUp(consumers, producers, q0, [], q0, a, b, 0, CAPACITY);
    StageOk(q1, threads, a, Out, b, Out, CAPACITY);
    StagePut(q1, threads, a, b, CAPACITY, 'x');
    ReachStep(q0, es1, q1, Put(b, 'x'), consumers, producers);
    var q2, pb := Apply(q1, Put(b, 'x')), Asleep(Putting('x'));
    StageOk(q2, threads, a, Out, b, pb, CAPACITY);
    StageGet(q2, threads, a, b, pb, CAPACITY);
    ReachStep(q0, es1 + [Put(b, 'x')], q2, Get(a), consumers, producers);
    var es3, q3 := Drain(consumers, producers, q0, es1 + [Put(b, 'x')] + [Get(a)], Apply(q2, Get(a)), a, b, Woken(pb.job), CAPACITY - 1);
    StageOk(q3, threads, a, Out, b, Woken(pb.job), 0);
    StageGet(q3, threads, a, b, Woken(pb.job), 0);
    ReachStep(q0, es3, q3, Get(a), consumers, producers);
    var q4 := Apply(q3, Get(a));
    StageSwap(q4, threads, a, Want(Getting), b, Woken(pb.job), 0);
    StageFails(consumers, producers, buf, es3 + [Get(a)], q4, b, Woken(pb.job), a, 0);
  }

  /** No consumer ever sleeps beside a byte exactly when nobody consumes, or one
      thread is the only consumer and nobody else can block on the queue. */
  lemma NeverBesideExactly(consumers: set<nat>, producers: set<nat>, buf: seq<char>)
    requires |buf| == BUFSIZE
    ensures NeverBeside(consumers, producers, buf) <==> consumers == {} || (|consumers| == 1 && producers <= consumers)
  {
    hide Items, Bytes, Reach, Stage, QueueOk;
    if consumers == {} {
      OneUser(consumers, producers, buf, 0);
    } else {
      var a :| a in consumers;
      if b :| b in consumers && b != a {
        TwoConsumers(consumers, producers, buf, a, b);
        assert |consumers| != 1 by { assert {a, b} <= consumers; Pair(consumers, a, b); }
      } else {
        assert consumers == {a};
        if b :| b in producers && b != a {
          BlockingProducer(consumers, producers, buf, a, b);
        } else {
          OneUser(consumers, producers, buf, a);
        }
      }
    }
  }

  lemma Pair(s: set<nat>, a: nat, b: nat)
    requires a in s && b in s && a != b
    ensures |s| >= 2
  {
    assert |s - {a}| >= 1 by { assert b in s - {a}; }
  }

  lemma OneUser(consumers: set<nat>, producers: set<nat>, buf: seq<char>, x: nat)
    requires |buf| == BUFSIZE && (consumers == {} || (consumers == {x} && producers <= {x}))
    ensures NeverBeside(consumers, producers, buf)
  {
    hide Items, Reach;
    var q0 := Fresh(consumers + producers, buf);
    FreshOk(consumers + producers, buf);
    forall es: seq<Event>, q: Queue | Reach(q0, es, q, consumers, producers)
      ensures RingOk(q.ring) && !Beside(q)
    {
      AloneRun(q0, es, q, consumers, producers, x);
    }
  }

  lemma ReachNone(q: Queue, consumers: set<nat>, producers: set<nat>)
    requires QueueOk(q)
    ensures Reach(q, [], q, consumers, producers)
  {
  }
}
