/** fs/inode.c: inodes as 76 bytes in a table that ignores sector boundaries, and
    the list of open inodes. */
module InodeTable {
  import opened Sectors

  const INODE: nat := 76
  const INODES: nat := 4096
  const TABLE_SECTS: nat := 608
  const TABLE_BYTES: nat := 311296     // 4096 inodes of 76 bytes, 608 sectors of 512

  /** The words of struct inode, in memory order. */
  datatype Inode = Inode(no: Word, size: Word, opens: Word, deny: Word, sectors: seq<Word>, prev: Word, next: Word)
  type INode = i: Inode | |i.sectors| == 13 witness Inode(0, 0, 0, 0, seq(13, i => 0), 0, 0)

  function WordsOf(i: INode): (ws: seq<Word>)
    ensures |ws| == 19
  {
    [i.no, i.size, i.opens, i.deny] + i.sectors + [i.prev, i.next]
  }

  function FromWords(ws: seq<Word>): INode
    requires |ws| == 19
  {
    Inode(ws[0], ws[1], ws[2], ws[3], ws[4..17], ws[17], ws[18])
  }

  /** What inode_sync writes: the fields that live in memory only are cleared. */
  function Pure(i: INode): INode { i.(opens := 0, deny := 0, prev := 0, next := 0) }

  function InodeBytes(i: INode): (s: seq<Byte>)
    ensures |s| == INODE
  {
    BytesOf(WordsOf(i))
  }

  function WordsAt(s: seq<Byte>): (ws: seq<Word>)
    requires |s| == INODE
    ensures |ws| == 19 && forall k :: 0 <= k < 19 ==> ws[k] == WordAt(s, 4 * k)
  {
    seq(19, k requires 0 <= k < 19 => WordAt(s, 4 * k))
  }

  function Decode(s: seq<Byte>): INode
    requires |s| == INODE
  {
    FromWords(WordsAt(s))
  }

  lemma DecodeBytes(i: INode)
    ensures Decode(InodeBytes(i)) == i
  {
    hide WordAt, BytesOf;
    var ws := WordsOf(i);
    forall k | 0 <= k < 19 ensures WordAt(BytesOf(ws), 4 * k) == ws[k] { WordOfBytes(ws, k); }
    assert WordsAt(BytesOf(ws)) == ws;
    assert ws[4..17] == i.sectors;
  }

  // ---- the table as one run of bytes

  predicate TableIn(disk: seq<Sector>, table: nat) { table + TABLE_SECTS <= |disk| }

  function ByteAt(disk: seq<Sector>, table: nat, x: nat): Byte
    requires TableIn(disk, table) && x < TABLE_BYTES
  {
    disk[table + x / SECTOR][x % SECTOR]
  }

  /** The bytes of inode `n` in the table. */
  function Slot(disk: seq<Sector>, table: nat, n: nat): (s: seq<Byte>)
    requires TableIn(disk, table) && n < INODES
    ensures |s| == INODE && forall i :: 0 <= i < INODE ==> s[i] == ByteAt(disk, table, INODE * n + i)
  {
    seq<Byte>(INODE, i requires 0 <= i < INODE => ByteAt(disk, table, INODE * n + i))
  }

  /** inode_locate: the sector of an inode, its offset there, and whether it runs into the next sector. */
  function Locate(n: nat): (r: (nat, nat, bool))
    requires n < INODES
    ensures r.0 < TABLE_SECTS && r.1 < SECTOR && SECTOR * r.0 + r.1 == INODE * n
    ensures if r.2 then r.0 + 1 < TABLE_SECTS && SECTOR < r.1 + INODE <= 2 * SECTOR else r.1 + INODE <= SECTOR
  {
    var off := n * INODE;
    (off / SECTOR, off % SECTOR, SECTOR - off % SECTOR < INODE)
  }

  function Pair(a: seq<Byte>, b: seq<Byte>): seq<Byte> { a + b }

  /** The disk with `bytes` stored as inode `n`, by reading, patching and writing one or two sectors. */
  function Stored(disk: seq<Sector>, table: nat, n: nat, bytes: seq<Byte>): (d: seq<Sector>)
    requires TableIn(disk, table) && n < INODES && |bytes| == INODE
    ensures |d| == |disk|
  {
    var (sec, off, two) := Locate(n);
    var s := table + sec;
    if two then
      var buf := Patch(Pair(disk[s], disk[s + 1]), off, bytes);
      disk[s := buf[..SECTOR]][s + 1 := buf[SECTOR..]]
    else
      disk[s := Patch(disk[s], off, bytes)]
  }

  /** Whether it straddles or not, storing inode `n` changes its 76 bytes and no others. */
  lemma StoredByte(disk: seq<Sector>, table: nat, n: nat, bytes: seq<Byte>, x: nat)
    requires TableIn(disk, table) && n < INODES && |bytes| == INODE && x < TABLE_BYTES
    ensures ByteAt(Stored(disk, table, n, bytes), table, x) ==
      if INODE * n <= x < INODE * n + INODE then bytes[x - INODE * n] else ByteAt(disk, table, x)
  {
    var (sec, off, two) := Locate(n);
    var q, i := x / SECTOR, x % SECTOR;
    assert x == SECTOR * q + i;
    if two {
      var buf := Patch(Pair(disk[table + sec], disk[table + sec + 1]), off, bytes);
      if q == sec {
        assert buf[..SECTOR][i] == buf[i];
      } else if q == sec + 1 {
        assert buf[SECTOR..][i] == buf[SECTOR + i];
      }
    }
  }

  lemma StoredSlot(disk: seq<Sector>, table: nat, n: nat, bytes: seq<Byte>, m: nat)
    requires TableIn(disk, table) && n < INODES && |bytes| == INODE && m < INODES
    ensures Slot(Stored(disk, table, n, bytes), table, m) == if m == n then bytes else Slot(disk, table, m)
  {
    hide Stored, ByteAt;
    var d := Stored(disk, table, n, bytes);
    forall i | 0 <= i < INODE ensures Slot(d, table, m)[i] == (if m == n then bytes else Slot(disk, table, m))[i] {
      StoredByte(disk, table, n, bytes, INODE * m + i);
    }
  }

  /** Sectors outside the inode table are not touched. */
  lemma StoredElsewhere(disk: seq<Sector>, table: nat, n: nat, bytes: seq<Byte>, a: nat)
    requires TableIn(disk, table) && n < INODES && |bytes| == INODE && a < |disk| && !(table <= a < table + TABLE_SECTS)
    ensures Stored(disk, table, n, bytes)[a] == disk[a]
  {
  }

  // ---- inode_sync

  /** The slot inode_sync writes to: the number is kept in eight bits. */
  function Narrow(no: Word): nat { no % 256 }

  function Synced(disk: seq<Sector>, table: nat, i: INode): (d: seq<Sector>)
    requires TableIn(disk, table)
    ensures |d| == |disk|
  {
    Stored(disk, table, Narrow(i.no), InodeBytes(Pure(i)))
  }

  /** How many bytes inode_sync reads into the buffer it is lent. */
  function SyncBytes(no: Word): nat { if Locate(Narrow(no)).2 then 2 * SECTOR else SECTOR }

  /** One sector, which is all that file_write lends, is enough exactly when the
      slot lies in one sector. It is not for number 6, the first of those. */
  lemma SyncFits(no: Word)
    ensures var x := INODE * Narrow(no);
      && (SyncBytes(no) <= SECTOR <==> x / SECTOR == (x + INODE - 1) / SECTOR)
      && (SyncBytes(no) <= SECTOR <==> x % SECTOR <= SECTOR - INODE)
    ensures no < 6 ==> SyncBytes(no) <= SECTOR
    ensures SyncBytes(6) > SECTOR
  {
    var x := INODE * Narrow(no);
    var (sec, off, two) := Locate(Narrow(no));
    LastByte(x, sec, off);
  }

  lemma LastByte(x: nat, sec: nat, off: nat)
    requires x == SECTOR * sec + off && off < SECTOR
    ensures x / SECTOR == sec && x % SECTOR == off
    ensures (x + INODE - 1) / SECTOR == if off <= SECTOR - INODE then sec else sec + 1
  {
  }

  /** Storing and reading back gives the inode with its memory-only fields reset,
      and every other inode as it was, exactly when the number fits in eight
      bits: otherwise inode `no` stays as it was and inode no % 256 is overwritten. */
  lemma SyncExactly(disk: seq<Sector>, table: nat, i: INode)
    requires TableIn(disk, table) && i.no < INODES
    ensures var d := Synced(disk, table, i);
      && Slot(d, table, Narrow(i.no)) == InodeBytes(Pure(i)) && Decode(Slot(d, table, Narrow(i.no))) == Pure(i)
      && (forall m :: 0 <= m < INODES && m != Narrow(i.no) ==> Slot(d, table, m) == Slot(disk, table, m))
      && (Decode(Slot(d, table, i.no)) == Pure(i) <==> i.no < 256 || Decode(Slot(disk, table, i.no)) == Pure(i))
      && ((forall m :: 0 <= m < INODES && m != i.no ==> Slot(d, table, m) == Slot(disk, table, m)) <==>
        i.no < 256 || Slot(disk, table, Narrow(i.no)) == InodeBytes(Pure(i)))
  {
    hide Slot, Stored, InodeBytes, Decode, Pure;
    var bytes := InodeBytes(Pure(i));
    forall m: nat | m < INODES
      ensures Slot(Synced(disk, table, i), table, m) == if m == Narrow(i.no) then bytes else Slot(disk, table, m)
    {
      StoredSlot(disk, table, Narrow(i.no), bytes, m);
    }
    DecodeBytes(Pure(i));
  }

  /** inode_delete does not narrow: it clears the slot of the number it is given. */
  lemma DeleteExactly(disk: seq<Sector>, table: nat, n: nat, m: nat)
    requires TableIn(disk, table) && n < INODES && m < INODES
    ensures Slot(Stored(disk, table, n, Zeros(INODE)), table, m) == if m == n then Zeros(INODE) else Slot(disk, table, m)
  {
    StoredSlot(disk, table, n, Zeros(INODE), m);
  }

  /** An inode numbered 256 or more, stored for the first time, is read back from its own blank slot as inode 0. */
  lemma LostInode(disk: seq<Sector>, table: nat, i: INode)
    requires TableIn(disk, table) && 256 <= i.no < INODES && Slot(disk, table, i.no) == Zeros(INODE)
    ensures Decode(Slot(Synced(disk, table, i), table, i.no)) == Inode(0, 0, 0, 0, seq(13, k => 0), 0, 0) != Pure(i)
  {
    hide Slot, Stored, InodeBytes, Synced;
    SyncExactly(disk, table, i);
    DecodeZeros();
  }

  lemma DecodeZeros()
    ensures Decode(Zeros(INODE)) == Inode(0, 0, 0, 0, seq(13, k => 0), 0, 0)
  {
    assert forall k :: 0 <= k < 19 ==> WordAt(Zeros(INODE), 4 * k) == 0;
    assert WordsAt(Zeros(INODE))[4..17] == seq(13, k => 0);
  }

  // ---- the open inodes

  /** At most one copy of each number. */
  predicate Apart(open: seq<INode>) {
    forall i, j :: 0 <= i < j < |open| ==> open[i].no != open[j].no
  }

  /** The place of inode `no` in the list; -1 when it is not open. */
  function At(open: seq<INode>, no: nat): (k: int)
    ensures -1 <= k < |open| && (k >= 0 ==> open[k].no == no)
    ensures forall i :: 0 <= i < |open| && open[i].no == no ==> 0 <= k <= i
  {
    if open == [] then -1
    else if open[0].no == no then 0
    else var k := At(open[1..], no);
      assert forall i :: 1 <= i < |open| ==> open[1..][i - 1] == open[i];
      if k < 0 then -1 else k + 1
  }

  function Opens(open: seq<INode>, no: nat): nat { if At(open, no) < 0 then 0 else open[At(open, no)].opens }

  /** The open count of each copy is the number of opens of its number not yet
      closed, and there is no copy of an inode nobody has open. */
  ghost predicate Counts(open: seq<INode>, uses: multiset<nat>) {
    && (forall no: nat :: Opens(open, no) == uses[no])
    && (forall i :: 0 <= i < |open| ==> open[i].opens > 0)
  }

  lemma AtIs(open: seq<INode>, k: nat)
    requires Apart(open) && k < |open|
    ensures At(open, open[k].no) == k
  {
  }

  lemma Recounted(open: seq<INode>, uses: multiset<nat>, k: nat, opens: Word, uses2: multiset<nat>)
    requires Apart(open) && Counts(open, uses) && k < |open| && opens > 0
    requires forall n: nat :: uses2[n] == if n == open[k].no then opens else uses[n]
    ensures var o := open[k := open[k].(opens := opens)]; Apart(o) && Counts(o, uses2)
  {
    hide At;
    var o := open[k := open[k].(opens := opens)];
    assert forall i :: 0 <= i < |o| ==> o[i].no == open[i].no;
    forall n: nat ensures Opens(o, n) == uses2[n] {
      assert Opens(open, n) == uses[n];
      if At(open, n) >= 0 { AtIs(open, At(open, n)); }
      if At(o, n) >= 0 { assert o[At(o, n)].no == open[At(o, n)].no; AtIs(open, At(o, n)); }
      AtIs(open, k);
    }
  }

  lemma Pushed(open: seq<INode>, uses: multiset<nat>, i: INode)
    requires Apart(open) && Counts(open, uses) && uses[i.no as nat] == 0 && i.opens == 1
    ensures Apart([i] + open) && Counts([i] + open, uses + multiset{i.no as nat})
  {
    var o := [i] + open;
    assert o[1..] == open;
    assert Opens(open, i.no) == 0;
    NotOpen(open, uses, i.no);
    forall n: nat ensures Opens(o, n) == (uses + multiset{i.no as nat})[n] {
      assert Opens(open, n) == uses[n];
    }
  }

  /** An inode listed under another number than the one asked for. */
  lemma Misfiled(open: seq<INode>, uses: multiset<nat>, i: INode, no: nat)
    requires Counts(open, uses) && no !in uses && i.no != no
    ensures !Counts([i] + open, uses + multiset{no})
  {
    NotOpen(open, uses, no);
    var o := [i] + open;
    assert o[1..] == open;
    assert Opens(o, no) == 0;
  }

  lemma NotOpen(open: seq<INode>, uses: multiset<nat>, no: nat)
    requires Counts(open, uses)
    ensures At(open, no) < 0 <==> no !in uses
  {
    assert Opens(open, no) == uses[no];
  }

  lemma Dropped(open: seq<INode>, uses: multiset<nat>, k: nat)
    requires Apart(open) && Counts(open, uses) && k < |open| && open[k].opens == 1
    ensures var o := open[..k] + open[k + 1..]; Apart(o) && Counts(o, uses - multiset{open[k].no as nat})
  {
    hide At;
    var o, uses2 := open[..k] + open[k + 1..], uses - multiset{open[k].no as nat};
    assert forall i :: 0 <= i < |o| ==> o[i] == open[if i < k then i else i + 1];
    forall n: nat ensures Opens(o, n) == uses2[n] {
      assert Opens(open, n) == uses[n];
      AtIs(open, k);
      if At(o, n) >= 0 {
        var j := if At(o, n) < k then At(o, n) else At(o, n) + 1;
        AtIs(open, j);
      }
      if At(open, n) >= 0 && At(open, n) != k {
        var j := if At(open, n) < k then At(open, n) else At(open, n) - 1;
        assert o[j].no == n;
      }
    }
  }

  class InodeCache {
    var disk: seq<Sector>
    const table: nat
    var open: seq<INode>           // open_inodes, most recently read first
    ghost var uses: multiset<nat>  // opens not yet closed, by inode number

    ghost predicate Valid()
      reads this
    {
      TableIn(disk, table) && Apart(open) && Counts(open, uses)
    }

    constructor (disk: seq<Sector>, table: nat)
      requires TableIn(disk, table)
      ensures Valid() && this.disk == disk && this.table == table && open == [] && uses == multiset{}
    {
      this.disk, this.table, open, uses := disk, table, [], multiset{};
    }

    method Find(no: Word) returns (k: int)
      requires Valid()
      ensures k == At(open, no) && (k == -1 <==> no as nat !in uses)
    {
      hide Counts;
      k := 0;
      NotOpen(open, uses, no);
      while k < |open|
        invariant 0 <= k <= |open| && forall i :: 0 <= i < k ==> open[i].no != no
      {
        if open[k].no == no {
          return;
        }
        k := k + 1;
      }
      return -1;
    }

    /** inode_open: the copy in the list if there is one, else the inode read
        from the table. The list stays good exactly when what is read carries the
        number asked for; otherwise it is listed under the number it carries. */
    method Open(no: Word) returns (i: INode)
      requires Valid() && no < INODES && uses[no as nat] < 0xFFFF_FFFF
      modifies this`open, this`uses
      ensures Valid() <==> no as nat in old(uses) || Decode(Slot(disk, table, no)).no == no
      ensures uses == old(uses) + multiset{no as nat}
      ensures Valid() ==> i.no == no && At(open, no) >= 0 && i == open[At(open, no)]
      ensures var k := At(old(open), no);
        if no as nat in old(uses) then k >= 0 && i == old(open)[k].(opens := i.opens) && open == old(open)[k := i]
        else i == Decode(Slot(disk, table, no)).(opens := 1) && open == [i] + old(open)
    {
      hide Slot, Decode, Counts;
      var k := Find(no);
      OpensOf(open, uses, no);
      if k >= 0 {
        i := open[k].(opens := open[k].opens + 1);
        Recounted(open, uses, k, i.opens, uses + multiset{no as nat});
        open := open[k := i];
        AtIs(open, k);
      } else {
        i := Decode(Slot(disk, table, no)).(opens := 1);
        if i.no == no {
          Pushed(open, uses, i);
          AtIs([i] + open, 0);
        } else {
          Misfiled(open, uses, i, no);
        }
        open := [i] + open;
      }
      uses := uses + multiset{no as nat};
    }

    /** inode_close: the copy goes with its last user. */
    method Close(no: Word)
      requires Valid() && no as nat in uses
      modifies this`open, this`uses
      ensures Valid() && uses == old(uses) - multiset{no as nat}
      ensures var k := At(old(open), no);
        && k >= 0
        && if no as nat in uses then open == old(open)[k := old(open)[k].(opens := uses[no as nat])]
           else open == old(open)[..k] + old(open)[k + 1..]
    {
      hide Counts;
      var k := Find(no);
      OpensOf(open, uses, no);
      var opens := open[k].opens - 1;
      if opens == 0 {
        Dropped(open, uses, k);
        open := open[..k] + open[k + 1..];
      } else {
        Recounted(open, uses, k, opens, uses - multiset{no as nat});
        open := open[k := open[k].(opens := opens)];
      }
      uses := uses - multiset{no as nat};
    }

    /** inode_sync: one or two sectors are read, patched and written back. Slot
        no % 256 then holds the inode with its memory-only fields cleared, every
        other slot and every sector outside the table what it held. */
    method Sync(i: INode)
      requires Valid()
      modifies this`disk
      ensures Valid() && |disk| == |old(disk)|
      ensures Decode(Slot(disk, table, Narrow(i.no))) == Pure(i)
      ensures forall m :: 0 <= m < INODES && m != Narrow(i.no) ==> Slot(disk, table, m) == Slot(old(disk), table, m)
      ensures forall a :: 0 <= a < |disk| && !(table <= a < table + TABLE_SECTS) ==> disk[a] == old(disk)[a]
    {
      hide Counts, Slot, Decode, InodeBytes, Apart;
      var inodeNo := i.no % 256;
      var (sec, off, two) := Locate(inodeNo);
      var pure := i.(opens := 0, deny := 0, prev := 0, next := 0);
      var s := table + sec;
      var bytes := InodeBytes(pure);
      ghost var was := disk;
      if two {
        var buf := Pair(disk[s], disk[s + 1]);
        buf := Patch(buf, off, bytes);
        disk := disk[s := buf[..SECTOR]];
        disk := disk[s + 1 := buf[SECTOR..]];
      } else {
        var buf: Sector := disk[s];
        buf := Patch(buf, off, bytes);
        disk := disk[s := buf];
      }
      assert disk == Synced(was, table, i);
      SyncedSlots(was, table, i);
    }
  }

  lemma SyncedSlots(disk: seq<Sector>, table: nat, i: INode)
    requires TableIn(disk, table)
    ensures var d := Synced(disk, table, i);
      && Decode(Slot(d, table, Narrow(i.no))) == Pure(i)
      && (forall m :: 0 <= m < INODES && m != Narrow(i.no) ==> Slot(d, table, m) == Slot(disk, table, m))
      && (forall a :: 0 <= a < |d| && !(table <= a < table + TABLE_SECTS) ==> d[a] == disk[a])
  {
    hide Slot, Stored, InodeBytes, Decode;
    var bytes := InodeBytes(Pure(i));
    forall m: nat | m < INODES
      ensures Slot(Synced(disk, table, i), table, m) == if m == Narrow(i.no) then bytes else Slot(disk, table, m)
    {
      StoredSlot(disk, table, Narrow(i.no), bytes, m);
    }
    DecodeBytes(Pure(i));
    forall a: nat | a < |disk| && !(table <= a < table + TABLE_SECTS)
      ensures Synced(disk, table, i)[a] == disk[a]
    {
      StoredElsewhere(disk, table, Narrow(i.no), bytes, a);
    }
  }

  lemma OpensOf(open: seq<INode>, uses: multiset<nat>, no: nat)
    requires Counts(open, uses)
    ensures Opens(open, no) == uses[no]
  {
  }
}
