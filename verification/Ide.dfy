/** device/ide.c: splitting a transfer into commands, and the handshake between
    the driver and the disk interrupt. */
module Ide {
  import opened Common
  import opened Sectors

  const MAX_LBA: nat := 163839       // 80 MB of 512-byte sectors, less one

  // ---- commands

  /** The values written to the sector-count, address and device registers. */
  datatype Command = Command(count: Byte, low: Byte, mid: Byte, high: Byte, device: Byte)

  /** select_sector: the count is cut to eight bits, so that 256 goes out as 0. */
  function Select(slave: bool, lba: nat, secs: nat): Command
    requires lba <= MAX_LBA
  {
    Command(secs % 256, lba % 256, lba / 0x100 % 256, lba / 0x1_0000 % 256, 0xE0 + (if slave then 0x10 else 0) + lba / 0x100_0000)
  }

  /** What the drive makes of the registers: READ and WRITE SECTOR(S) take a count of 0 for 256. */
  function Address(c: Command): nat { c.low + 0x100 * c.mid + 0x1_0000 * c.high + 0x100_0000 * (c.device % 16) }
  function Count(c: Command): nat { if c.count == 0 then 256 else c.count }

  lemma SelectMeans(slave: bool, lba: nat, secs: nat)
    requires lba <= MAX_LBA && 1 <= secs <= 256
    ensures var c := Select(slave, lba, secs);
      && Address(c) == lba && Count(c) == secs && (c.device / 16 % 2 == 1 <==> slave)
      && c.device / 32 == 7      // LBA mode, and the two bits that are always set
  {
  }

  function Range(lba: nat, cnt: nat): (r: seq<nat>)
    ensures |r| == cnt && forall i :: 0 <= i < cnt ==> r[i] == lba + i
  {
    seq(cnt, i => lba + i)
  }

  /** The sectors that a list of commands moves, in order. */
  function Moved(log: seq<Command>): seq<nat> {
    if log == [] then [] else Moved(log[..|log| - 1]) + Range(Address(log[|log| - 1]), Count(log[|log| - 1]))
  }

  lemma MovedStep(log: seq<Command>, slave: bool, lba: nat, done: nat, secs: nat)
    requires Moved(log) == Range(lba, done) && 1 <= secs <= 256 && lba + done <= MAX_LBA
    ensures Moved(log + [Select(slave, lba + done, secs)]) == Range(lba, done + secs)
  {
    var c := Select(slave, lba + done, secs);
    SelectMeans(slave, lba + done, secs);
    assert (log + [c])[..|log|] == log;
  }

  class Drive {
    const slave: bool
    var sectors: seq<Sector>

    ghost predicate Valid()
      reads this
    {
      |sectors| <= MAX_LBA + 1
    }

    /** ide_read: the commands move each sector of the range once, in order, and the buffer is what they hold. */
    method Read(lba: nat, cnt: nat) returns (buf: seq<Sector>, log: seq<Command>)
      requires Valid() && 0 < cnt && lba + cnt <= |sectors|
      ensures buf == sectors[lba..lba + cnt] && Moved(log) == Range(lba, cnt)
    {
      hide Moved, Select, Address, Count;
      buf, log := [], [];
      var done := 0;
      MovedNone(lba);
      while done < cnt
        invariant 0 <= done <= cnt && buf == sectors[lba..lba + done] && Moved(log) == Range(lba, done)
      {
        var secs := if done + 256 <= cnt then 256 else cnt - done;
        var c := Select(slave, lba + done, secs);
        SelectMeans(slave, lba + done, secs);
        MovedStep(log, slave, lba, done, secs);
        log := log + [c];
        Slices(sectors, lba, lba + done, lba + done + secs);
        buf := buf + sectors[Address(c)..Address(c) + Count(c)];
        done := done + secs;
      }
    }

    /** ide_write: afterwards the range holds the data and every other sector what it held. */
    method Write(lba: nat, data: seq<Sector>) returns (log: seq<Command>)
      requires Valid() && data != [] && lba + |data| <= |sectors|
      modifies this
      ensures Valid() && sectors == old(sectors)[..lba] + data + old(sectors)[lba + |data|..]
      ensures Moved(log) == Range(lba, |data|)
    {
      hide Moved, Select, Address, Count;
      log := [];
      var done := 0;
      ghost var was := sectors;
      MovedNone(lba);
      assert was == Overlaid(was, lba, data, 0);
      while done < |data|
        invariant 0 <= done <= |data| && sectors == Overlaid(was, lba, data, done) && Moved(log) == Range(lba, done)
      {
        var secs := if done + 256 <= |data| then 256 else |data| - done;
        var c := Select(slave, lba + done, secs);
        SelectMeans(slave, lba + done, secs);
        MovedStep(log, slave, lba, done, secs);
        log := log + [c];
        OverlaidStep(was, lba, data, done, secs);
        sectors := sectors[..Address(c)] + data[done..done + Count(c)] + sectors[Address(c) + Count(c)..];
        done := done + secs;
      }
      assert data[..|data|] == data;
    }
  }

  lemma MovedNone(lba: nat)
    ensures Moved([]) == Range(lba, 0)
  {
  }

  /** `was` with the first `done` sectors of `data` laid over it at `lba`. */
  function Overlaid(was: seq<Sector>, lba: nat, data: seq<Sector>, done: nat): (s: seq<Sector>)
    requires done <= |data| && lba + |data| <= |was|
    ensures |s| == |was|
  {
    was[..lba] + data[..done] + was[lba + done..]
  }

  lemma OverlaidStep(was: seq<Sector>, lba: nat, data: seq<Sector>, done: nat, secs: nat)
    requires done + secs <= |data| && lba + |data| <= |was|
    ensures var s, a := Overlaid(was, lba, data, done), lba + done;
      s[..a] + data[done..done + secs] + s[a + secs..] == Overlaid(was, lba, data, done + secs)
  {
    var s, a := Overlaid(was, lba, data, done), lba + done;
    assert s[..a] == was[..lba] + data[..done];
    assert s[a + secs..] == was[a + secs..];
    assert data[..done + secs] == data[..done] + data[done..done + secs];
  }

  // ---- the handshake

  /** Where a thread is in ide_read or ide_write: outside, holding the channel
      lock between commands, after setting expecting_intr, after writing the
      command, asleep on disk_done, or woken and about to test it again. */
  datatype Phase = Outside | Holding | Armed | Sent | Asleep | Woken

  datatype Channel = Channel(phases: map<nat, Phase>, holder: int, expecting: bool, done: nat, waiters: seq<nat>, failed: bool)

  /** Commands begun and not yet waited for. */
  function Outstanding(c: Channel): nat {
    if c.holder in c.phases && c.phases[c.holder] != Outside && c.phases[c.holder] != Holding then 1 else 0
  }

  predicate Inv(c: Channel) {
    && !c.failed
    && (forall t :: t in c.phases && t != c.holder ==> c.phases[t] == Outside)
    && (c.holder == -1 || (c.holder in c.phases && c.phases[c.holder] != Outside))
    && Outstanding(c) == (if c.expecting then 1 else 0) + c.done
    && (if c.holder in c.phases && c.phases[c.holder] == Asleep
        then c.waiters == [c.holder] && c.expecting else c.waiters == [])
    && (c.holder in c.phases && c.phases[c.holder] == Woken ==> c.done == 1)
  }

  datatype Step = Acquire(t: nat) | Arm(t: nat) | Send(t: nat) | Down(t: nat) | Release(t: nat) | Interrupt

  predicate CanStep(c: Channel, s: Step) {
    match s
    case Acquire(t) => t in c.phases && c.phases[t] == Outside && c.holder == -1
    case Arm(t) => t in c.phases && c.phases[t] == Holding
    case Send(t) => t in c.phases && c.phases[t] == Armed
    case Down(t) => t in c.phases && (c.phases[t] == Sent || c.phases[t] == Woken)
    case Release(t) => t in c.phases && c.phases[t] == Holding
    case Interrupt => true
  }

  /** sema_down and the interrupt handler run with interrupts off, so each is one
      step; an interrupt may come at any moment, expected or not. `failed`
      records that an assertion of sema_down or sema_up did not hold. */
  function Do(c: Channel, s: Step): Channel
    requires CanStep(c, s)
  {
    match s
    case Acquire(t) => c.(phases := c.phases[t := Holding], holder := t)
    case Arm(t) => c.(phases := c.phases[t := Armed], expecting := true)
    case Send(t) => c.(phases := c.phases[t := Sent])
    case Down(t) =>
      if c.done == 0 then
        c.(phases := c.phases[t := Asleep], waiters := c.waiters + [t], failed := c.failed || t in c.waiters)
      else c.(phases := c.phases[t := Holding], done := c.done - 1, failed := c.failed || c.done != 1)
    case Release(t) => c.(phases := c.phases[t := Outside], holder := -1)
    case Interrupt =>
      if !c.expecting then c
      else if c.waiters == [] then c.(expecting := false, done := c.done + 1, failed := c.failed || c.done != 0)
      else if c.waiters[0] in c.phases then
        c.(expecting := false, done := c.done + 1, failed := c.failed || c.done != 0,
           phases := c.phases[c.waiters[0] := Woken], waiters := c.waiters[1..])
      else c.(failed := true)
  }

  lemma StepInv(c: Channel, s: Step)
    requires Inv(c) && CanStep(c, s)
    ensures Inv(Do(c, s))
  {
  }

  ghost predicate CanRun(c: Channel, steps: seq<Step>)
    decreases |steps|
  {
    steps == [] || (CanStep(c, steps[0]) && CanRun(Do(c, steps[0]), steps[1..]))
  }

  function Run(c: Channel, steps: seq<Step>): Channel
    requires CanRun(c, steps)
    decreases |steps|
  {
    if steps == [] then c else Run(Do(c, steps[0]), steps[1..])
  }

  /** A channel nobody uses yet. */
  function Fresh(threads: set<nat>): Channel { Channel(map t | t in threads :: Outside, -1, false, 0, [], false) }

  /** In every run, whatever interrupts come: outstanding commands are exactly
      expecting_intr plus disk_done.value, no semaphore assertion fails, at most
      one thread is past the lock, and a sleeping driver still has its interrupt
      coming, which wakes it. */
  lemma {:induction false} HandshakeSafe(c: Channel, steps: seq<Step>)
    requires Inv(c) && CanRun(c, steps)
    ensures var d := Run(c, steps);
      && !d.failed && Outstanding(d) == (if d.expecting then 1 else 0) + d.done <= 1
      && (forall t, u :: t in d.phases && u in d.phases && d.phases[t] != Outside && d.phases[u] != Outside ==> t == u)
      && (forall t :: t in d.phases && d.phases[t] == Asleep ==> d.expecting && Do(d, Interrupt).phases[t] == Woken)
    decreases |steps|
  {
    if steps != [] {
      StepInv(c, steps[0]);
      HandshakeSafe(Do(c, steps[0]), steps[1..]);
    }
  }

  lemma FreshInv(threads: set<nat>)
    ensures Inv(Fresh(threads))
  {
  }

  /** So it is in every state a fresh channel reaches, for any set of threads. */
  lemma HandshakeReachable(threads: set<nat>, steps: seq<Step>)
    requires CanRun(Fresh(threads), steps)
    ensures var d := Run(Fresh(threads), steps);
      && !d.failed && Outstanding(d) == (if d.expecting then 1 else 0) + d.done <= 1
      && (forall t, u :: t in d.phases && u in d.phases && d.phases[t] != Outside && d.phases[u] != Outside ==> t == u)
      && (forall t :: t in d.phases && d.phases[t] == Asleep ==> d.expecting && Do(d, Interrupt).phases[t] == Woken)
  {
    FreshInv(threads);
    HandshakeSafe(Fresh(threads), steps);
  }
}
