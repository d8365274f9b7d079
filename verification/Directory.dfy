/** fs/dir.c: the entries of a directory, in up to 140 blocks of 21 slots. */
module Directory {
  import opened Common
  import opened Sectors
  import opened DirSlots
  import opened Volume
  import opened Bitmaps

  // ---- one block of a directory rewritten

  lemma BlockOf(j: nat)
    requires j < SLOTS
    ensures j / PER_SECTOR < BLOCKS && j == PER_SECTOR * (j / PER_SECTOR) + j % PER_SECTOR
  {
  }

  /** The slots once the block of slot `j` reads as before except that `j` holds `e`. */
  lemma SlotsPut(disk: seq<Sector>, node: Node, disk2: seq<Sector>, node2: Node, j: nat, e: Entry, s: Sector)
    requires j < SLOTS && |disk2| == |disk|
    requires var a := Blk(disk2, node2, j / PER_SECTOR);
      if a == 0 then e == DEAD && forall i :: 0 <= i < PER_SECTOR ==> EntriesOf(s)[i] == DEAD
      else a < |disk2| && disk2[a] == s
    requires forall k: nat :: k < BLOCKS && k != j / PER_SECTOR ==> BlkMoved(disk, node, disk2, node2, k)
    requires forall i :: 0 <= i < PER_SECTOR ==>
      EntriesOf(s)[i] == if i == j % PER_SECTOR then e else SlotAt(disk, node, PER_SECTOR * (j / PER_SECTOR) + i)
    ensures Slots(disk2, node2) == Slots(disk, node)[j := e]
  {
    hide Blk, EntryAt;
    forall q | 0 <= q < SLOTS ensures SlotAt(disk2, node2, q) == Slots(disk, node)[j := e][q] {
      BlockOf(q);
      var k, i := q / PER_SECTOR, q % PER_SECTOR;
      if k == j / PER_SECTOR {
        assert EntriesOf(s)[i] == EntryAt(s, ENTRY * i);
      } else {
        assert BlkMoved(disk, node, disk2, node2, k);
      }
    }
  }

  /** Block `k` is where it was and reads as before. */
  predicate BlkMoved(disk: seq<Sector>, node: Node, disk2: seq<Sector>, node2: Node, k: nat)
    requires k < BLOCKS
  {
    var a := Blk(disk, node, k);
    Blk(disk2, node2, k) == a && (0 < a < |disk| && a < |disk2| ==> disk2[a] == disk[a])
  }

  /** An entry that may be added: live, well named, and new in name and inode. */
  predicate NewEntry(es: seq<Entry>, e: Entry) {
    && Live(e) && NameOk(e.name) && e.name != [] && e.name !in DirMap(es)
    && forall i :: 2 <= i < |es| && Live(es[i]) ==> es[i].ino != e.ino
  }

  lemma InsertShape(disk: seq<Sector>, node: Node, disk2: seq<Sector>, node2: Node, j: nat, e: Entry)
    requires DirShape(disk, node) && j < SLOTS && !Live(Slots(disk, node)[j]) && NewEntry(Slots(disk, node), e)
    requires Slots(disk2, node2) == Slots(disk, node)[j := e] && node2.size == node.size + ENTRY
    requires Blk(disk2, node2, 0) != 0 && (node2.sectors[DIRECT] != 0 <==> Blk(disk2, node2, DIRECT) != 0)
    requires forall k: nat :: 1 <= k < BLOCKS && Blk(disk2, node2, k) != 0 ==> Blk(disk, node, k) != 0 || k == j / PER_SECTOR
    ensures DirShape(disk2, node2)
    ensures DirMap(Slots(disk2, node2)) == DirMap(Slots(disk, node))[e.name := e]
  {
    hide Blk, SlotAt, SlotsOk, LiveIn, DirMap, NameOk;
    var es, fs := Slots(disk, node), Slots(disk2, node2);
    InsertOk(es, j, e);
    forall k: nat | 1 <= k < BLOCKS && Blk(disk2, node2, k) != 0 ensures BlockLive(fs, k) {
      BlockOf(j);
      if k == j / PER_SECTOR {
        assert Live(fs[j]);
      } else {
        var q :| PER_SECTOR * k <= q < PER_SECTOR * (k + 1) && Live(es[q]);
        assert Live(fs[q]);
      }
    }
  }

  /** Slot `j` shares its block with no other live slot. */
  predicate Alone(es: seq<Entry>, j: nat)
    requires |es| == SLOTS
  {
    forall q :: 0 <= q < SLOTS && q / PER_SECTOR == j / PER_SECTOR && q != j ==> !Live(es[q])
  }

  lemma DeleteShape(disk: seq<Sector>, node: Node, disk2: seq<Sector>, node2: Node, j: nat)
    requires DirShape(disk, node) && 2 <= j < SLOTS && Live(Slots(disk, node)[j])
    requires Slots(disk2, node2) == Slots(disk, node)[j := DEAD] && node2.size == node.size - ENTRY
    requires Blk(disk2, node2, 0) != 0 && (node2.sectors[DIRECT] != 0 <==> Blk(disk2, node2, DIRECT) != 0)
    requires forall k: nat :: 1 <= k < BLOCKS && Blk(disk2, node2, k) != 0 ==> Blk(disk, node, k) != 0
    requires j >= PER_SECTOR && Alone(Slots(disk, node), j) ==> Blk(disk2, node2, j / PER_SECTOR) == 0
    ensures DirShape(disk2, node2)
    ensures DirMap(Slots(disk2, node2)) == DirMap(Slots(disk, node)) - {Slots(disk, node)[j].name}
  {
    hide Blk, SlotAt, SlotsOk, LiveIn, DirMap, NameOk;
    var es, fs := Slots(disk, node), Slots(disk2, node2);
    DeleteOk(es, j);
    forall k: nat | 1 <= k < BLOCKS && Blk(disk2, node2, k) != 0 ensures BlockLive(fs, k) {
      BlockOf(j);
      if k == j / PER_SECTOR {
        var q :| 0 <= q < SLOTS && q / PER_SECTOR == j / PER_SECTOR && q != j && Live(es[q]);
        BlockOf(q);
        assert Live(fs[q]);
      } else {
        var q :| PER_SECTOR * k <= q < PER_SECTOR * (k + 1) && Live(es[q]);
        assert Live(fs[q]);
      }
    }
  }

  lemma DirShapeAt(v: Vol, n: nat)
    requires Shaped(v) && n in v.nodes && n in v.dirs
    ensures DirShape(v.disk, v.nodes[n])
  {
    hide DirShape;
  }

  /** One sector of block `k` of directory `n` replaced, and the size set. */
  function Rewritten(v: Vol, n: nat, a: nat, s: Sector, size: nat): Vol
    requires n in v.nodes && a < |v.disk|
  {
    v.(disk := v.disk[a := s], nodes := v.nodes[n := v.nodes[n].(size := size)])
  }

  /** Writing one slot of a block that is there. */
  lemma SlotWritten(v: Vol, owner: Owners, n: nat, j: nat, e: Entry, s: Sector, size: nat)
    requires Owned(v, owner) && n in v.nodes && j < SLOTS && Blk(v.disk, v.nodes[n], j / PER_SECTOR) != 0
    requires var a := Blk(v.disk, v.nodes[n], j / PER_SECTOR);
      a < |v.disk| && EntriesOf(s) == EntriesOf(v.disk[a])[j % PER_SECTOR := e]
    ensures var w := Rewritten(v, n, Blk(v.disk, v.nodes[n], j / PER_SECTOR), s, size);
      && Owned(w, owner) && OthersSame(v, owner, w.disk, n)
      && Slots(w.disk, w.nodes[n]) == Slots(v.disk, v.nodes[n])[j := e]
      && forall k: nat :: k < BLOCKS ==> Blk(w.disk, w.nodes[n], k) == Blk(v.disk, v.nodes[n], k)
  {
    hide Linked, Backed, Marked, Ref, EntryAt;
    var node, k := v.nodes[n], j / PER_SECTOR;
    var a := Blk(v.disk, node, k);
    var disk2, node2 := v.disk[a := s], node.(size := size);
    DataWriteRefs(v, owner, n, k, s);
    SizeOnly(disk2, node, size);
    RewriteInv(v, owner, n, disk2, node2);
    forall q: nat | q < BLOCKS && q != k ensures BlkMoved(v.disk, node, disk2, node2, q) {
      BlkDiffer(v, owner, n, q, k);
    }
    forall i | 0 <= i < PER_SECTOR
      ensures EntriesOf(s)[i] == if i == j % PER_SECTOR then e else SlotAt(v.disk, node, PER_SECTOR * k + i)
    {
      assert (PER_SECTOR * k + i) / PER_SECTOR == k && (PER_SECTOR * k + i) % PER_SECTOR == i;
    }
    SlotsPut(v.disk, node, disk2, node2, j, e, s);
  }

  lemma SizeOnly(disk: seq<Sector>, node: Node, size: nat)
    ensures forall r: nat :: r < REFS ==> Ref(disk, node.(size := size), r) == Ref(disk, node, r)
    ensures forall k: nat :: k < BLOCKS ==> Blk(disk, node.(size := size), k) == Blk(disk, node, k)
  {
  }

  lemma BlkDiffer(v: Vol, owner: Owners, n: nat, k: nat, q: nat)
    requires Owned(v, owner) && n in v.nodes && k < BLOCKS && q < BLOCKS && k != q
    ensures Blk(v.disk, v.nodes[n], k) != 0 ==> Blk(v.disk, v.nodes[n], k) != Blk(v.disk, v.nodes[n], q)
    ensures Blk(v.disk, v.nodes[n], k) < |v.disk|
    ensures Blk(v.disk, v.nodes[n], k) != 0 ==> Blk(v.disk, v.nodes[n], k) != v.nodes[n].sectors[DIRECT]
  {
    hide Backed, WordAt;
    RefRange(v, owner, n, Place(k));
    RefRange(v, owner, n, Place(q));
    RefRange(v, owner, n, DIRECT);
  }

  lemma NewEntryName(es: seq<Entry>, e: Entry)
    requires NewEntry(es, e)
    ensures NameOk(e.name)
  {
    hide DirMap;
  }

  lemma InsertSameBlocks(disk: seq<Sector>, node: Node, disk2: seq<Sector>, node2: Node, j: nat, e: Entry)
    requires DirShape(disk, node) && j < SLOTS && !Live(Slots(disk, node)[j]) && NewEntry(Slots(disk, node), e)
    requires Slots(disk2, node2) == Slots(disk, node)[j := e] && node2 == node.(size := node.size + ENTRY)
    requires forall k: nat :: k < BLOCKS ==> Blk(disk2, node2, k) == Blk(disk, node, k)
    ensures DirShape(disk2, node2)
    ensures DirMap(Slots(disk2, node2)) == DirMap(Slots(disk, node))[e.name := e]
  {
    hide Blk, Slots, SlotsOk, DirMap, LiveIn, BlockLive, NewEntry;
    InsertShape(disk, node, disk2, node2, j, e);
  }

  lemma InsertInPlace(v: Vol, owner: Owners, n: nat, j: nat, e: Entry)
    requires Valid(v, owner) && n in v.nodes && n in v.dirs && j < SLOTS
    requires Blk(v.disk, v.nodes[n], j / PER_SECTOR) != 0
    requires !Live(Slots(v.disk, v.nodes[n])[j]) && NewEntry(Slots(v.disk, v.nodes[n]), e)
    ensures var a := Blk(v.disk, v.nodes[n], j / PER_SECTOR);
      a < |v.disk| &&
      var w := Rewritten(v, n, a, Patch(v.disk[a], ENTRY * (j % PER_SECTOR), EntryBytes(e)), v.nodes[n].size + ENTRY);
      && Valid(w, owner) && Others(v, w, n)
      && Slots(w.disk, w.nodes[n]) == Slots(v.disk, v.nodes[n])[j := e]
      && DirMap(Slots(w.disk, w.nodes[n])) == DirMap(Slots(v.disk, v.nodes[n]))[e.name := e]
  {
    hide Owned, Blk, Shaped, InodesOk, Others, Slots, EntryBytes, Patch, DirMap, EntriesOf, DirShape, NewEntry, Live, OthersSame;
    var node, k := v.nodes[n], j / PER_SECTOR;
    var a := Blk(v.disk, node, k);
    DirShapeAt(v, n);
    NewEntryName(Slots(v.disk, node), e);
    BlkDiffer(v, owner, n, k, if k == 0 then 1 else 0);
    var s := Patch(v.disk[a], ENTRY * (j % PER_SECTOR), EntryBytes(e));
    EntriesPut(v.disk[a], j % PER_SECTOR, e);
    SlotWritten(v, owner, n, j, e, s, node.size + ENTRY);
    var w := Rewritten(v, n, a, s, node.size + ENTRY);
    InsertSameBlocks(v.disk, node, w.disk, w.nodes[n], j, e);
    OneChanged(v, owner, n, w, owner);
  }

  // ---- an entry in a block taken for it

  /** The inode once block `k` has been put at `lba`, reached through table `t` if it is indirect. */
  function GrownInode(node: Node, k: nat, lba: Word, t: Word): Node {
    node.(size := node.size + ENTRY, sectors := if k < DIRECT then node.sectors[k := lba] else node.sectors[DIRECT := t])
  }

  function FirstEntry(e: Entry): Sector
    requires NameOk(e.name)
  {
    Patch(Zeros(SECTOR), 0, EntryBytes(e))
  }

  function GrownSectors(disk: seq<Sector>, node: Node, k: nat, lba: Word, t: Word, e: Entry): (d: seq<Sector>)
    requires k < BLOCKS && node.sectors[DIRECT] < |disk| && lba < |disk| && t < |disk| && NameOk(e.name)
    ensures |d| == |disk|
  {
    var ws := AllBlocks(disk, node)[DIRECT..];
    var d := if k < DIRECT then disk else disk[t := TableSector(ws[k - DIRECT := lba])];
    d[lba := FirstEntry(e)]
  }

  /** Where block `k` goes: a new address for it, and the table a new one exactly for block 12. */
  predicate NewBlock(v: Vol, n: nat, k: nat, lba: Word, t: Word, got: map<nat, nat>)
    requires n in v.nodes && k < BLOCKS
  {
    var node := v.nodes[n];
    && Blk(v.disk, node, k) == 0 && lba != 0 && lba != t && lba < |v.disk| && t < |v.disk|
    && if k < DIRECT then t == 0 && got == map[lba as nat := k]
       else if k == DIRECT then t != 0 && node.sectors[DIRECT] == 0 && got == map[lba as nat := 13, t as nat := DIRECT]
       else t != 0 && node.sectors[DIRECT] == t && got == map[lba as nat := k + 1]
  }

  function NewRef(v: Vol, n: nat, k: nat, lba: Word, t: Word, r: nat): Word
    requires n in v.nodes && r < REFS
  {
    if r == Place(k) then lba else if r == DIRECT <= k then t else Ref(v.disk, v.nodes[n], r)
  }

  lemma NewBlockRef(v: Vol, owner: Owners, n: nat, used2: seq<bool>, k: nat, lba: Word, t: Word, e: Entry, got: map<nat, nat>, r: nat)
    requires Owned(v, owner) && n in v.nodes && k < BLOCKS && NewBlock(v, n, k, lba, t, got) && Taken(v, used2, got)
    requires NameOk(e.name) && r < REFS && v.nodes[n].sectors[DIRECT] < |v.disk|
    ensures Ref(GrownSectors(v.disk, v.nodes[n], k, lba, t, e), GrownInode(v.nodes[n], k, lba, t), r) == NewRef(v, n, k, lba, t, r)
  {
    hide Linked, Backed, Marked, WordAt, FirstEntry, NameOk;
    var node := v.nodes[n];
    RefRange(v, owner, n, DIRECT);
    GotFresh(v, owner, used2, got);
    if r > DIRECT {
      if k < DIRECT {
        assert lba in got;
        assert node.sectors[DIRECT] == Ref(v.disk, node, DIRECT);
      } else {
        var all := AllBlocks(v.disk, node);
        var ws := all[DIRECT..][k - DIRECT := lba];
        TableRoundTrip(ws);
        assert TableOf(TableSector(ws))[r - 13] == WordAt(TableSector(ws), 4 * (r - 13));
        assert all[DIRECT..][r - 13] == all[r - 1] == Blk(v.disk, node, r - 1);
      }
    }
  }

  /** The volume once directory `n` has a new block `k` that holds `e`. */
  function WithBlock(v: Vol, n: nat, used2: seq<bool>, k: nat, lba: Word, t: Word, e: Entry): Vol
    requires n in v.nodes && k < BLOCKS && v.nodes[n].sectors[DIRECT] < |v.disk| && lba < |v.disk| && t < |v.disk| && NameOk(e.name)
  {
    v.(used := used2, disk := GrownSectors(v.disk, v.nodes[n], k, lba, t, e), nodes := v.nodes[n := GrownInode(v.nodes[n], k, lba, t)])
  }

  lemma NewBlockOwned(v: Vol, owner: Owners, n: nat, used2: seq<bool>, k: nat, lba: Word, t: Word, e: Entry, got: map<nat, nat>)
    requires Owned(v, owner) && n in v.nodes && k < BLOCKS && NewBlock(v, n, k, lba, t, got) && Taken(v, used2, got)
    requires NameOk(e.name) && v.nodes[n].sectors[DIRECT] < |v.disk|
    ensures var w := WithBlock(v, n, used2, k, lba, t, e);
      && Owned(w, owner + Roles(n, got)) && OthersSame(v, owner, w.disk, n)
      && forall r: nat :: r < REFS ==> Ref(w.disk, w.nodes[n], r) == NewRef(v, n, k, lba, t, r)
  {
    hide Owned, WordAt, NameOk, GrownSectors, GrownInode, Ref, Roles, Taken, OthersSame;
    var node := v.nodes[n];
    var w := WithBlock(v, n, used2, k, lba, t, e);
    forall r: nat | r < REFS
      ensures Ref(w.disk, w.nodes[n], r) == NewRef(v, n, k, lba, t, r)
    {
      NewBlockRef(v, owner, n, used2, k, lba, t, e, got, r);
    }
    NewBlockOthers(v, owner, n, used2, k, lba, t, e, got);
    assert Ref(v.disk, node, DIRECT) == node.sectors[DIRECT] by { TableRef(v.disk, node); }
    AttachInv(v, owner, n, used2, w.disk, w.nodes[n], got);
  }

  lemma TableRef(disk: seq<Sector>, node: Node)
    ensures Ref(disk, node, DIRECT) == node.sectors[DIRECT]
  {
    hide WordAt;
  }

  lemma NewBlockOthers(v: Vol, owner: Owners, n: nat, used2: seq<bool>, k: nat, lba: Word, t: Word, e: Entry, got: map<nat, nat>)
    requires Owned(v, owner) && n in v.nodes && k < BLOCKS && NewBlock(v, n, k, lba, t, got) && Taken(v, used2, got)
    requires NameOk(e.name) && v.nodes[n].sectors[DIRECT] < |v.disk|
    ensures OthersSame(v, owner, GrownSectors(v.disk, v.nodes[n], k, lba, t, e), n)
    ensures forall q: nat :: q < BLOCKS && Blk(v.disk, v.nodes[n], q) != 0 ==>
      var a := Blk(v.disk, v.nodes[n], q);
      a < |v.disk| && GrownSectors(v.disk, v.nodes[n], k, lba, t, e)[a] == v.disk[a]
    ensures GrownSectors(v.disk, v.nodes[n], k, lba, t, e)[lba] == FirstEntry(e)
  {
    hide Linked, Backed, Marked, WordAt, NameOk, FirstEntry, AllBlocks, TableSector, Ref;
    TableRef(v.disk, v.nodes[n]);
    GotFresh(v, owner, used2, got);
    assert lba in got;
    RefRange(v, owner, n, DIRECT);
    var disk2 := GrownSectors(v.disk, v.nodes[n], k, lba, t, e);
    forall q: nat | q < BLOCKS && Blk(v.disk, v.nodes[n], q) != 0
      ensures var a := Blk(v.disk, v.nodes[n], q); a < |v.disk| && disk2[a] == v.disk[a]
    {
      RefRange(v, owner, n, Place(q));
    }
  }

  lemma FirstEntrySlots(e: Entry)
    requires NameOk(e.name)
    ensures forall i :: 0 <= i < PER_SECTOR ==> EntriesOf(FirstEntry(e))[i] == if i == 0 then e else DEAD
  {
    hide EntryAt, EntryBytes, Patch, NameOk;
    EntriesPut(Zeros(SECTOR), 0, e);
    EntriesOfZeros();
  }

  lemma NewBlockSlots(v: Vol, owner: Owners, n: nat, used2: seq<bool>, k: nat, lba: Word, t: Word, e: Entry, got: map<nat, nat>)
    requires Owned(v, owner) && n in v.nodes && k < BLOCKS && NewBlock(v, n, k, lba, t, got) && Taken(v, used2, got)
    requires NameOk(e.name) && v.nodes[n].sectors[DIRECT] < |v.disk|
    ensures var w := WithBlock(v, n, used2, k, lba, t, e);
      Slots(w.disk, w.nodes[n]) == Slots(v.disk, v.nodes[n])[PER_SECTOR * k := e]
  {
    hide Owned, WordAt, NameOk, GrownSectors, GrownInode, Ref, Roles, Taken, OthersSame, EntryAt, FirstEntry, EntriesOf;
    var node, j := v.nodes[n], PER_SECTOR * k;
    var w := WithBlock(v, n, used2, k, lba, t, e);
    assert j / PER_SECTOR == k && j % PER_SECTOR == 0;
    NewBlockOwned(v, owner, n, used2, k, lba, t, e, got);
    NewBlockOthers(v, owner, n, used2, k, lba, t, e, got);
    FirstEntrySlots(e);
    forall q: nat | q < BLOCKS && q != k ensures BlkMoved(v.disk, node, w.disk, w.nodes[n], q) {
      assert Place(q) != DIRECT && Place(q) != Place(k);
    }
    var es := EntriesOf(FirstEntry(e));
    forall i | 0 <= i < PER_SECTOR ensures es[i] == if i == 0 then e else SlotAt(v.disk, node, PER_SECTOR * k + i) {
      assert (PER_SECTOR * k + i) / PER_SECTOR == k;
    }
    SlotsPut(v.disk, node, w.disk, w.nodes[n], j, e, FirstEntry(e));
  }

  lemma InsertNewBlock(v: Vol, owner: Owners, n: nat, used2: seq<bool>, k: nat, lba: Word, t: Word, e: Entry, got: map<nat, nat>)
    requires Valid(v, owner) && n in v.nodes && n in v.dirs && k < BLOCKS
    requires NewBlock(v, n, k, lba, t, got) && Taken(v, used2, got)
    requires NewEntry(Slots(v.disk, v.nodes[n]), e) && NameOk(e.name) && v.nodes[n].sectors[DIRECT] < |v.disk|
    ensures var w := WithBlock(v, n, used2, k, lba, t, e);
      && Valid(w, owner + Roles(n, got)) && Others(v, w, n)
      && Slots(w.disk, w.nodes[n]) == Slots(v.disk, v.nodes[n])[PER_SECTOR * k := e]
      && DirMap(Slots(w.disk, w.nodes[n])) == DirMap(Slots(v.disk, v.nodes[n]))[e.name := e]
  {
    hide Owned, WordAt, NameOk, GrownSectors, Ref, Roles, Taken, OthersSame, Slots, NewEntry, DirMap, Live, Shaped, InodesOk, Others, SlotsOk, BlockLive, LiveIn;
    var node, j := v.nodes[n], PER_SECTOR * k;
    var w := WithBlock(v, n, used2, k, lba, t, e);
    NewBlockOwned(v, owner, n, used2, k, lba, t, e, got);
    NewBlockSlots(v, owner, n, used2, k, lba, t, e, got);
    DirShapeAt(v, n);
    TableRef(v.disk, node);
    DeadThere(v.disk, node, k);
    InsertShape(v.disk, node, w.disk, w.nodes[n], j, e);
    OneChanged(v, owner, n, w, owner + Roles(n, got));
  }

  lemma DeadThere(disk: seq<Sector>, node: Node, k: nat)
    requires k < BLOCKS && Blk(disk, node, k) == 0
    ensures !Live(Slots(disk, node)[PER_SECTOR * k])
  {
    hide Blk, EntryAt;
    assert PER_SECTOR * k / PER_SECTOR == k;
    assert Slots(disk, node)[PER_SECTOR * k] == SlotAt(disk, node, PER_SECTOR * k);
  }

  // ---- sync_dir_entry

  /** The first free slot, the slots of absent blocks included; -1 when every slot is live. */
  function FirstDead(es: seq<Entry>, from: nat := 0): (j: int)
    requires from <= |es|
    ensures j == -1 || (from <= j < |es| && !Live(es[j]))
    ensures forall i :: from <= i < |es| && !Live(es[i]) ==> from <= j <= i
    decreases |es| - from
  {
    if from == |es| then -1 else if !Live(es[from]) then from else FirstDead(es, from + 1)
  }

  predicate LiveUpTo(es: seq<Entry>, m: nat) { m <= |es| && forall j :: 0 <= j < m ==> Live(es[j]) }

  lemma FirstDeadIs(es: seq<Entry>, j: nat)
    requires j < |es| && !Live(es[j]) && LiveUpTo(es, j)
    ensures FirstDead(es) == j
  {
  }

  /** How many blocks an insertion at slot `j` takes. */
  function EntryNeed(disk: seq<Sector>, node: Node, j: int): nat {
    if 0 <= j < SLOTS && Blk(disk, node, j / PER_SECTOR) == 0 then (if j / PER_SECTOR == DIRECT then 2 else 1) else 0
  }

  /** The first free slot of directory `n` is `j`. */
  ghost predicate FreeAt(v: Vol, n: nat, j: nat)
    requires n in v.nodes
  {
    j < SLOTS && !Live(Slots(v.disk, v.nodes[n])[j]) && forall i :: 0 <= i < j ==> Live(Slots(v.disk, v.nodes[n])[i])
  }

  /** `free` blocks pay for the block of that slot, if it is absent, and for the
      table, if that block hangs under it and it is absent too. */
  ghost predicate RoomFor(v: Vol, n: nat, free: int)
    requires n in v.nodes
  {
    exists j: nat :: FreeAt(v, n, j) &&
      (if Blk(v.disk, v.nodes[n], j / PER_SECTOR) == 0 then 1 else 0)
        + (if j / PER_SECTOR >= DIRECT && v.nodes[n].sectors[DIRECT] == 0 then 1 else 0) <= free
  }

  /** No slot of directory `n` is free. */
  ghost predicate FullDir(v: Vol, n: nat)
    requires n in v.nodes
  {
    forall i :: 0 <= i < SLOTS ==> Live(Slots(v.disk, v.nodes[n])[i])
  }

  lemma RoomMeans(v: Vol, owner: Owners, n: nat, free: int)
    requires Valid(v, owner) && n in v.nodes && n in v.dirs && 0 <= free
    ensures var j := FirstDead(Slots(v.disk, v.nodes[n]));
      && (j < 0 <==> FullDir(v, n))
      && (RoomFor(v, n, free) <==> j >= 0 && EntryNeed(v.disk, v.nodes[n], j) <= free)
  {
    hide Owned, Slots, Blk, SlotsOk, BlockLive;
    DirShapeAt(v, n);
    var es, node := Slots(v.disk, v.nodes[n]), v.nodes[n];
    var j := FirstDead(es);
    if j >= 0 {
      assert FreeAt(v, n, j);
      var k := j / PER_SECTOR;
      if k > DIRECT {
        assert Live(es[PER_SECTOR * DIRECT]);
        LiveThere(v.disk, node, PER_SECTOR * DIRECT);
      }
      if node.sectors[DIRECT] == 0 && k >= DIRECT { NoTable(v.disk, node, k); }
    }
  }

  /** Without a table there are no indirect blocks. */
  lemma NoTable(disk: seq<Sector>, node: Node, k: nat)
    requires node.sectors[DIRECT] == 0 && DIRECT <= k < BLOCKS
    ensures Blk(disk, node, k) == 0
  {
  }

  /** A live slot has a block. */
  lemma LiveThere(disk: seq<Sector>, node: Node, j: nat)
    requires j < SLOTS && Live(Slots(disk, node)[j])
    ensures Blk(disk, node, j / PER_SECTOR) != 0
  {
    hide Blk;
  }

  datatype InsertResult = Inserted | NoSpace | Full

  /** `w` is `v` with `e` added to directory `n` at slot `j`. */
  ghost predicate Added(v: Vol, w: Vol, n: nat, j: nat, e: Entry) {
    && ChangedAt(v, w, n) && Others(v, w, n) && j < SLOTS
    && Slots(w.disk, w.nodes[n]) == Slots(v.disk, v.nodes[n])[j := e]
    && DirMap(Slots(w.disk, w.nodes[n])) == DirMap(Slots(v.disk, v.nodes[n]))[e.name := e]
  }

  lemma RoomOf(v: Vol, owner: Owners, n: nat)
    requires Owned(v, owner) && n in v.nodes
    ensures v.cnt <= |v.used| && (forall b :: v.cnt <= b < |v.used| ==> v.used[b]) && 0 < v.base && v.base + v.cnt <= |v.disk| < 0x1_0000_0000
    ensures Taken(v, v.used, map[]) && v.nodes[n].sectors[DIRECT] < |v.disk|
  {
    hide Linked, Backed;
    TableRef(v.disk, v.nodes[n]);
    RefRange(v, owner, n, DIRECT);
  }

  lemma TakeOne(v: Vol, w: Vol, lba: int, r: nat)
    requires Took(v, w, lba)
    ensures Taken(v, w.used, map[lba as nat := r])
  {
  }

  lemma TakeTwo(v: Vol, w: Vol, x: Vol, t: int, lba: int)
    requires Took(v, w, t) && Took(w, x, lba)
    ensures lba != t && Taken(v, x.used, map[lba as nat := 13, t as nat := DIRECT])
  {
  }

  /** Lines 159-214: block `k` is taken for the entry, and the table too when `k` is the first indirect block. */
  method AddBlock(p: Partition, n: nat, k: nat, e: Entry) returns (ok: bool)
    requires p.Ok() && n in p.v.nodes && n in p.v.dirs && k < BLOCKS && Blk(p.v.disk, p.v.nodes[n], k) == 0
    requires k > DIRECT ==> Blk(p.v.disk, p.v.nodes[n], DIRECT) != 0
    requires NewEntry(Slots(p.v.disk, p.v.nodes[n]), e)
    modifies p
    ensures ok <==> (if k == DIRECT then 2 else 1) <= Free(old(p.v).used)
    ensures !ok ==> p.v == old(p.v) && p.owner == old(p.owner)
    ensures ok ==> p.Ok() && Added(old(p.v), p.v, n, PER_SECTOR * k, e)
    ensures ok ==> Free(p.v.used) == Free(old(p.v).used) - if k == DIRECT then 2 else 1
  {
    hide Owned, Shaped, InodesOk, Rooted, Others, Slots, NewEntry, DirMap, Free, Taken, NameOk, Blk, Roles, GrownSectors;
    ghost var v0, owner0 := p.v, p.owner;
    var node := p.v.nodes[n];
    RoomOf(v0, owner0, n);
    TableIff(v0, n);
    NewEntryName(Slots(v0.disk, node), e);
    var lba := p.AllocBlock();
    if lba == -1 {
      return false;
    }
    var t := 0;
    ghost var got: map<nat, nat> := map[lba as nat := Place(k)];
    if k == DIRECT {
      t := lba;
      ghost var v1 := p.v;
      lba := p.AllocBlock();
      if lba == -1 {
        p.FreeBlock(t);
        assert v1.used[t - v0.base := false] == v0.used;
        return false;
      }
      TakeTwo(v0, v1, p.v, t, lba);
      got := map[lba as nat := 13, t as nat := DIRECT];
    } else {
      TakeOne(v0, p.v, lba, Place(k));
      t := if k < DIRECT then 0 else node.sectors[DIRECT];
      NotTable(v0, owner0, n, p.v.used, got);
    }
    InsertNewBlock(v0, owner0, n, p.v.used, k, lba, t, e, got);
    p.v := p.v.(disk := GrownSectors(p.v.disk, node, k, lba, t, e), nodes := p.v.nodes[n := GrownInode(node, k, lba, t)]);
    assert p.v == WithBlock(v0, n, p.v.used, k, lba, t, e);
    p.owner := owner0 + Roles(n, got);
    return true;
  }

  lemma TableIff(v: Vol, n: nat)
    requires Shaped(v) && n in v.nodes && n in v.dirs
    ensures v.nodes[n].sectors[DIRECT] != 0 <==> Blk(v.disk, v.nodes[n], DIRECT) != 0
  {
    hide Blk, Slots, SlotsOk, LiveIn, BlockLive;
    DirShapeAt(v, n);
  }

  lemma NotTable(v: Vol, owner: Owners, n: nat, used2: seq<bool>, got: map<nat, nat>)
    requires Owned(v, owner) && Taken(v, used2, got) && n in v.nodes
    ensures 0 !in got && v.nodes[n].sectors[DIRECT] as nat !in got
  {
    hide Linked, Backed;
    TableRef(v.disk, v.nodes[n]);
    RefRange(v, owner, n, DIRECT);
    GotFresh(v, owner, used2, got);
  }

  /** Lines 219-231: the first free slot of a sector, or its number of slots. */
  method FreeSlot(s: Sector) returns (i: nat)
    ensures i <= PER_SECTOR && LiveUpTo(EntriesOf(s), i)
    ensures i < PER_SECTOR ==> !Live(EntriesOf(s)[i])
  {
    hide EntryAt;
    i := 0;
    while i < PER_SECTOR && EntryAt(s, ENTRY * i).ftype != UNKNOWN
      invariant i <= PER_SECTOR && forall q :: 0 <= q < i ==> Live(EntriesOf(s)[q])
    {
      i := i + 1;
    }
  }

  method InsertEntry(p: Partition, n: nat, e: Entry) returns (r: InsertResult)
    requires p.Ok() && n in p.v.nodes && n in p.v.dirs && NewEntry(Slots(p.v.disk, p.v.nodes[n]), e)
    modifies p
    ensures var v, node := old(p.v), old(p.v).nodes[n];
      var j := FirstDead(Slots(v.disk, node));
      && p.Ok()
      && r == (if j < 0 then Full else if Free(v.used) < EntryNeed(v.disk, node, j) then NoSpace else Inserted)
      && (r != Inserted ==> p.v == v && p.owner == old(p.owner))
      && (r == Inserted ==> Added(v, p.v, n, j, e) && Free(p.v.used) == Free(v.used) - EntryNeed(v.disk, node, j))
    ensures r == Full <==> FullDir(old(p.v), n)
    ensures r == Inserted <==> RoomFor(old(p.v), n, Free(old(p.v).used))
  {
    hide Owned, Shaped, InodesOk, Rooted, Others, Slots, NewEntry, DirMap, Free, NameOk, Blk, Added, FirstDead, RoomFor, FullDir, Patch, EntryBytes, Valid, Inside;
    ghost var v0, owner0 := p.v, p.owner;
    var node := p.v.nodes[n];
    ghost var es := Slots(p.v.disk, node);
    ValidOwned(v0, owner0);
    RoomMeans(v0, owner0, n, Free(v0.used));
    RoomOf(v0, owner0, n);
    SizeWhole(v0, owner0, n);
    assert node.size % ENTRY == 0;
    BlksInside(v0, owner0, n);
    var k, i := FindFree(p.v.disk, node);
    if k == BLOCKS {
      return Full;
    }
    var j, a := PER_SECTOR * k + i, Blk(p.v.disk, node, k);
    SlotSplit(k, i);
    if a == 0 {
      var ok := AddBlock(p, n, k, e);
      return if ok then Inserted else NoSpace;
    }
    InsertInPlace(v0, owner0, n, j, e);
    NewEntryName(es, e);
    p.v := Rewritten(p.v, n, a, Patch(p.v.disk[a], ENTRY * i, EntryBytes(e)), node.size + ENTRY);
    AddedThere(v0, p.v, n, j, e);
    return Inserted;
  }

  predicate Inside(disk: seq<Sector>, node: Node) {
    node.sectors[DIRECT] < |disk| && forall k: nat :: k < BLOCKS ==> Blk(disk, node, k) < |disk|
  }

  lemma BlksInside(v: Vol, owner: Owners, n: nat)
    requires Owned(v, owner) && n in v.nodes
    ensures Inside(v.disk, v.nodes[n])
  {
    hide Owned, Blk;
    RoomOf(v, owner, n);
    forall k: nat | k < BLOCKS ensures Blk(v.disk, v.nodes[n], k) < |v.disk| {
      BlkDiffer(v, owner, n, k, if k == 0 then 1 else 0);
    }
  }

  lemma LiveThrough(es: seq<Entry>, k: nat, bs: seq<Entry>, i: nat)
    requires |es| == SLOTS && k < BLOCKS && es[PER_SECTOR * k..PER_SECTOR * (k + 1)] == bs && i <= PER_SECTOR
    requires LiveUpTo(es, PER_SECTOR * k)
    requires LiveUpTo(bs, i)
    ensures LiveUpTo(es, PER_SECTOR * k + i)
    ensures i < PER_SECTOR ==> es[PER_SECTOR * k + i] == bs[i]
  {
    forall j | PER_SECTOR * k <= j < PER_SECTOR * k + i ensures Live(es[j]) {
      assert bs[j - PER_SECTOR * k] == es[j];
    }
  }

  lemma SlotSplit(k: nat, i: nat)
    requires i < PER_SECTOR
    ensures (PER_SECTOR * k + i) / PER_SECTOR == k && (PER_SECTOR * k + i) % PER_SECTOR == i
  {
  }

  /** Lines 155-233: block by block, the first slot free or not yet there. */
  method FindFree(disk: seq<Sector>, node: Node) returns (k: nat, i: nat)
    requires Inside(disk, node)
    ensures k <= BLOCKS && i < PER_SECTOR
    ensures FirstDead(Slots(disk, node)) == if k == BLOCKS then -1 else PER_SECTOR * k + i
    ensures k < BLOCKS && Blk(disk, node, k) == 0 ==> i == 0
    ensures k > DIRECT ==> Blk(disk, node, DIRECT) != 0
  {
    hide Slots, Blk, EntryAt, FirstDead, EntriesOf, LiveUpTo, AllBlocks, Live;
    var all := AllBlocks(disk, node);
    ghost var es := Slots(disk, node);
    k := 0;
    NoneYet(es);
    while k < BLOCKS
      invariant 0 <= k <= BLOCKS
      invariant LiveUpTo(es, PER_SECTOR * k)
      invariant k > DIRECT ==> Blk(disk, node, DIRECT) != 0
    {
      if all[k] == 0 {
        DeadThere(disk, node, k);
        FirstDeadIs(es, PER_SECTOR * k);
        i := 0;
        return;
      }
      BlockSlots(disk, node, k);
      var ioBuf := disk[all[k]];
      i := FreeSlot(ioBuf);
      LiveThrough(es, k, EntriesOf(ioBuf), i);
      if i < PER_SECTOR {
        FirstDeadIs(es, PER_SECTOR * k + i);
        return;
      }
      k := k + 1;
    }
    NoneDead(es);
    i := 0;
  }

  lemma AddedThere(v: Vol, w: Vol, n: nat, j: nat, e: Entry)
    requires n in v.nodes && n in w.nodes && w == v.(disk := w.disk, nodes := v.nodes[n := w.nodes[n]])
    requires Others(v, w, n) && j < SLOTS
    requires Slots(w.disk, w.nodes[n]) == Slots(v.disk, v.nodes[n])[j := e]
    requires DirMap(Slots(w.disk, w.nodes[n])) == DirMap(Slots(v.disk, v.nodes[n]))[e.name := e]
    ensures Added(v, w, n, j, e)
  {
    hide Others, Slots, DirMap;
  }

  lemma NoneYet(es: seq<Entry>)
    ensures LiveUpTo(es, 0)
  {
  }

  lemma NoneDead(es: seq<Entry>)
    requires LiveUpTo(es, |es|)
    ensures FirstDead(es) == -1
  {
  }

  /** The slots of a directory that lie in block `k`, read from its sector. */
  lemma BlockSlots(disk: seq<Sector>, node: Node, k: nat)
    requires k < BLOCKS && 0 < Blk(disk, node, k) < |disk|
    ensures Slots(disk, node)[PER_SECTOR * k..PER_SECTOR * (k + 1)] == EntriesOf(disk[Blk(disk, node, k)])
  {
    hide Blk, EntryAt;
    var es, s := Slots(disk, node), EntriesOf(disk[Blk(disk, node, k)]);
    forall j | PER_SECTOR * k <= j < PER_SECTOR * (k + 1) ensures es[j] == s[j - PER_SECTOR * k] {
      assert j / PER_SECTOR == k && j % PER_SECTOR == j - PER_SECTOR * k;
      assert es[j] == SlotAt(disk, node, j);
    }
  }

  lemma SizeWhole(v: Vol, owner: Owners, n: nat)
    requires Valid(v, owner) && n in v.nodes && n in v.dirs
    ensures v.nodes[n].size == ENTRY * LiveIn(Slots(v.disk, v.nodes[n]), SLOTS)
  {
    hide Owned, Slots, SlotsOk, DirBlocks;
    DirShapeAt(v, n);
  }

  // ---- delete_dir_entry

  /** The first entry after "." and ".." that names inode `ino`; -1 when there is none. */
  function FindIno(es: seq<Entry>, ino: Word, from: nat := 2): (j: int)
    requires from <= |es|
    ensures j == -1 || (from <= j < |es| && Live(es[j]) && es[j].ino == ino)
    ensures forall i :: from <= i < |es| && Live(es[i]) && es[i].ino == ino ==> from <= j <= i
    decreases |es| - from
  {
    if from == |es| then -1 else if Live(es[from]) && es[from].ino == ino then from else FindIno(es, ino, from + 1)
  }

  lemma FindInoIs(es: seq<Entry>, ino: Word, j: nat)
    requires SlotsOk(es) && 2 <= j < SLOTS && Live(es[j]) && es[j].ino == ino
    ensures FindIno(es, ino) == j
  {
    hide NameOk;
  }

  /** `w` is `v` with slot `j` of directory `n` emptied, the inode table aside. */
  ghost predicate Removed(v: Vol, w: Vol, n: nat, j: nat) {
    && ChangedAt(v, w.(itable := v.itable), n) && Others(v, w, n) && j < SLOTS
    && Slots(w.disk, w.nodes[n]) == Slots(v.disk, v.nodes[n])[j := DEAD]
    && DirMap(Slots(w.disk, w.nodes[n])) == DirMap(Slots(v.disk, v.nodes[n])) - {Slots(v.disk, v.nodes[n])[j].name}
  }

  lemma DeleteInPlace(v: Vol, owner: Owners, n: nat, j: nat)
    requires Valid(v, owner) && n in v.nodes && n in v.dirs && 2 <= j < SLOTS
    requires 0 < Blk(v.disk, v.nodes[n], j / PER_SECTOR) < |v.disk| && v.nodes[n].size >= ENTRY
    requires Live(Slots(v.disk, v.nodes[n])[j]) && (j < PER_SECTOR || !Alone(Slots(v.disk, v.nodes[n]), j))
    ensures var a := Blk(v.disk, v.nodes[n], j / PER_SECTOR);
      var w := Rewritten(v, n, a, Patch(v.disk[a], ENTRY * (j % PER_SECTOR), Zeros(ENTRY)), v.nodes[n].size - ENTRY);
      Valid(w, owner) && Removed(v, w, n, j) && n in w.nodes && w.itable == v.itable
  {
    hide Owned, Blk, Shaped, InodesOk, Others, Slots, Patch, Zeros, DirMap, EntriesOf, DirShape, Live, OthersSame, Alone;
    var node, k := v.nodes[n], j / PER_SECTOR;
    var a := Blk(v.disk, node, k);
    DirShapeAt(v, n);
    var s := Patch(v.disk[a], ENTRY * (j % PER_SECTOR), Zeros(ENTRY));
    EntriesClear(v.disk[a], j % PER_SECTOR);
    SlotWritten(v, owner, n, j, DEAD, s, node.size - ENTRY);
    var w := Rewritten(v, n, a, s, node.size - ENTRY);
    DeleteSameBlocks(v.disk, node, w.disk, w.nodes[n], j);
    OneChanged(v, owner, n, w, owner);
  }

  lemma DeleteSameBlocks(disk: seq<Sector>, node: Node, disk2: seq<Sector>, node2: Node, j: nat)
    requires DirShape(disk, node) && 2 <= j < SLOTS && Live(Slots(disk, node)[j]) && node.size >= ENTRY
    requires Slots(disk2, node2) == Slots(disk, node)[j := DEAD] && node2 == node.(size := node.size - ENTRY)
    requires forall k: nat :: k < BLOCKS ==> Blk(disk2, node2, k) == Blk(disk, node, k)
    requires j < PER_SECTOR || !Alone(Slots(disk, node), j)
    ensures DirShape(disk2, node2)
    ensures DirMap(Slots(disk2, node2)) == DirMap(Slots(disk, node)) - {Slots(disk, node)[j].name}
  {
    hide Blk, Slots, SlotsOk, DirMap, LiveIn, BlockLive, Alone;
    DeleteShape(disk, node, disk2, node2, j);
  }

  /** The volume once block `k` of directory `n`, a direct one, has been given back. */
  function WithoutBlock(v: Vol, n: nat, k: nat, a: nat): Vol
    requires n in v.nodes && k < DIRECT && v.nodes[n].size >= ENTRY && v.base <= a < v.base + |v.used|
  {
    var node := v.nodes[n];
    v.(used := v.used[a - v.base := false], nodes := v.nodes[n := node.(size := node.size - ENTRY, sectors := node.sectors[k := 0])])
  }

  lemma WithoutRefs(v: Vol, owner: Owners, n: nat, k: nat, a: nat, r: nat)
    requires Owned(v, owner) && n in v.nodes && k < DIRECT && v.nodes[n].size >= ENTRY && v.base <= a < v.base + |v.used|
    requires a == Blk(v.disk, v.nodes[n], k) && a != 0 && r < REFS
    ensures var w := WithoutBlock(v, n, k, a);
      && Ref(w.disk, w.nodes[n], r) == (if Ref(v.disk, v.nodes[n], r) == a then 0 else Ref(v.disk, v.nodes[n], r))
      && (Ref(v.disk, v.nodes[n], r) == a <==> r == k)
  {
    hide Backed, WordAt;
    RefRange(v, owner, n, r);
    RefRange(v, owner, n, k);
  }

  lemma WithoutOwned(v: Vol, owner: Owners, n: nat, k: nat, a: nat)
    requires Owned(v, owner) && n in v.nodes && k < DIRECT && v.nodes[n].size >= ENTRY && v.base <= a < v.base + |v.used|
    requires a == Blk(v.disk, v.nodes[n], k) && a != 0
    ensures var w := WithoutBlock(v, n, k, a);
      && Owned(w, Without(owner, {a}))
      && forall q: nat :: q < BLOCKS ==> Blk(w.disk, w.nodes[n], q) == if q == k then 0 else Blk(v.disk, v.nodes[n], q)
  {
    hide Ref, Linked, Backed, WordAt;
    var w := WithoutBlock(v, n, k, a);
    forall r: nat | r < REFS
      ensures Ref(w.disk, w.nodes[n], r) == if Ref(v.disk, v.nodes[n], r) in {a} then 0 else Ref(v.disk, v.nodes[n], r)
      ensures Ref(v.disk, v.nodes[n], r) == a <==> r == k
    {
      WithoutRefs(v, owner, n, k, a, r);
    }
    RefRange(v, owner, n, k);
    DetachInv(v, owner, n, w.used, v.disk, w.nodes[n], {a});
    assert w == v.(used := w.used, disk := v.disk, nodes := v.nodes[n := w.nodes[n]]);
  }

  lemma WithoutSlots(v: Vol, owner: Owners, n: nat, j: nat, a: nat)
    requires Owned(v, owner) && n in v.nodes && j < SLOTS && j / PER_SECTOR < DIRECT
    requires v.nodes[n].size >= ENTRY && v.base <= a < v.base + |v.used|
    requires a == Blk(v.disk, v.nodes[n], j / PER_SECTOR) && a != 0
    requires SlotsOk(Slots(v.disk, v.nodes[n])) && Alone(Slots(v.disk, v.nodes[n]), j)
    ensures var w := WithoutBlock(v, n, j / PER_SECTOR, a);
      Slots(w.disk, w.nodes[n]) == Slots(v.disk, v.nodes[n])[j := DEAD]
  {
    hide Owned, Blk, EntryAt, EntriesOf, NameOk;
    var node, k := v.nodes[n], j / PER_SECTOR;
    var w := WithoutBlock(v, n, k, a);
    WithoutOwned(v, owner, n, k, a);
    EntriesOfZeros();
    var es, zs := Slots(v.disk, node), EntriesOf(Zeros(SECTOR));
    forall q: nat | q < BLOCKS && q != k ensures BlkMoved(v.disk, node, w.disk, w.nodes[n], q) {
    }
    forall i | 0 <= i < PER_SECTOR
      ensures zs[i] == if i == j % PER_SECTOR then DEAD else SlotAt(v.disk, node, PER_SECTOR * k + i)
    {
      var q := PER_SECTOR * k + i;
      assert q / PER_SECTOR == k && q % PER_SECTOR == i;
      assert i != j % PER_SECTOR ==> !Live(es[q]);
    }
    SlotsPut(v.disk, node, w.disk, w.nodes[n], j, DEAD, Zeros(SECTOR));
  }

  lemma DeleteBlock(v: Vol, owner: Owners, n: nat, j: nat, a: nat)
    requires Valid(v, owner) && n in v.nodes && n in v.dirs && PER_SECTOR <= j < SLOTS && j / PER_SECTOR < DIRECT
    requires a == Blk(v.disk, v.nodes[n], j / PER_SECTOR) && a != 0
    requires v.nodes[n].size >= ENTRY && v.base <= a < v.base + |v.used|
    requires Live(Slots(v.disk, v.nodes[n])[j]) && Alone(Slots(v.disk, v.nodes[n]), j)
    ensures var w := WithoutBlock(v, n, j / PER_SECTOR, a);
      Valid(w, Without(owner, {a})) && Removed(v, w, n, j) && n in w.nodes && w.itable == v.itable
  {
    hide Owned, Blk, Shaped, InodesOk, Others, Slots, DirMap, Live, SlotsOk, LiveIn, BlockLive, Alone;
    var node, k := v.nodes[n], j / PER_SECTOR;
    var w := WithoutBlock(v, n, k, a);
    DirShapeAt(v, n);
    WithoutOwned(v, owner, n, k, a);
    WithoutSlots(v, owner, n, j, a);
    DeleteShape(v.disk, node, w.disk, w.nodes[n], j);
    OneChanged(v, owner, n, w, Without(owner, {a}));
  }

  /** In a block after the first, an entry is alone iff it is the only live one counted. */
  lemma AloneIff(es: seq<Entry>, k: nat, j: nat)
    requires |es| == SLOTS && k < BLOCKS && PER_SECTOR * k <= j < PER_SECTOR * (k + 1) && Live(es[j])
    ensures LiveIn(es, PER_SECTOR * (k + 1)) - LiveIn(es, PER_SECTOR * k) == 1 <==> Alone(es, j)
  {
    hide LiveIn;
    var a, b := PER_SECTOR * k, PER_SECTOR * (k + 1);
    var fs := es[j := DEAD];
    LiveInPut(es, j, DEAD, b);
    assert fs[..a] == es[..a];
    LiveInSame(fs, es, a);
    LiveInMono(fs, a, b);
    assert forall q :: 0 <= q < SLOTS ==> (q / PER_SECTOR == k <==> a <= q < b);
    if Alone(es, j) {
      NoneLive(fs, a, b);
    } else {
      var q :| 0 <= q < SLOTS && q / PER_SECTOR == j / PER_SECTOR && q != j && Live(es[q]);
      assert Live(fs[q]);
    }
  }

  predicate Dotty(e: Entry) { e.name == DOT || e.name == DOTDOT }

  predicate Hit(e: Entry, ino: Word) { Live(e) && !Dotty(e) && e.ino == ino }

  /** How many of the first `n` entries are live and neither "." nor "..". */
  function Counted(es: seq<Entry>, n: nat): nat
    requires n <= |es|
  {
    if n == 0 then 0 else Counted(es, n - 1) + if Live(es[n - 1]) && !Dotty(es[n - 1]) then 1 else 0
  }

  /** Lines 278-298: one sector is searched for the inode while its entries are counted. */
  method ScanBlock(s: Sector, ino: Word) returns (found: int, cnt: nat, first: bool)
    requires forall i, q :: 0 <= i < q < PER_SECTOR ==> !(Hit(EntriesOf(s)[i], ino) && Hit(EntriesOf(s)[q], ino))
    ensures cnt == Counted(EntriesOf(s), PER_SECTOR)
    ensures first <==> exists i :: 0 <= i < PER_SECTOR && Live(EntriesOf(s)[i]) && EntriesOf(s)[i].name == DOT
    ensures found == -1 || (0 <= found < PER_SECTOR && Hit(EntriesOf(s)[found], ino) && cnt >= 1)
    ensures found == -1 ==> forall i :: 0 <= i < PER_SECTOR ==> !Hit(EntriesOf(s)[i], ino)
  {
    hide EntryAt;
    ghost var es := EntriesOf(s);
    found, cnt, first := -1, 0, false;
    var i := 0;
    while i < PER_SECTOR
      invariant 0 <= i <= PER_SECTOR && cnt == Counted(es, i)
      invariant first <==> exists q :: 0 <= q < i && Live(es[q]) && es[q].name == DOT
      invariant found == -1 || (0 <= found < i && Hit(es[found], ino) && cnt >= 1)
      invariant found == -1 ==> forall q :: 0 <= q < i ==> !Hit(es[q], ino)
    {
      var e := EntryAt(s, ENTRY * i);
      assert e == es[i];
      if e.ftype != UNKNOWN {
        if e.name == DOT {
          first := true;
        } else if e.name != DOTDOT {
          cnt := cnt + 1;
          if e.ino == ino {
            assert found == -1;
            found := i;
          }
        }
      }
      i := i + 1;
    }
  }

  lemma {:induction false} CountedIs(es: seq<Entry>, bs: seq<Entry>, from: nat, i: nat)
    requires i <= |bs| && from + |bs| <= |es| && es[from..from + |bs|] == bs
    requires forall q :: 0 <= q < |bs| && Live(bs[q]) ==> !Dotty(bs[q])
    ensures Counted(bs, i) == LiveIn(es, from + i) - LiveIn(es, from)
  {
    if i > 0 {
      CountedIs(es, bs, from, i - 1);
      assert bs[i - 1] == es[from + i - 1];
    }
  }

  /** What the scan of block `k` says about the directory. */
  lemma ScanMeans(es: seq<Entry>, k: nat, bs: seq<Entry>, ino: Word)
    requires SlotsOk(es) && k < BLOCKS && es[PER_SECTOR * k..PER_SECTOR * (k + 1)] == bs
    ensures forall i, q :: 0 <= i < q < PER_SECTOR ==> !(Hit(bs[i], ino) && Hit(bs[q], ino))
    ensures (exists i :: 0 <= i < PER_SECTOR && Live(bs[i]) && bs[i].name == DOT) <==> k == 0
    ensures forall i :: 0 <= i < PER_SECTOR && Hit(bs[i], ino) ==>
      PER_SECTOR * k + i >= 2 && FindIno(es, ino) == PER_SECTOR * k + i && (k > 0 ==> (Counted(bs, PER_SECTOR) == 1 <==> Alone(es, PER_SECTOR * k + i)))
    ensures forall i :: 0 <= i < PER_SECTOR && PER_SECTOR * k + i >= 2 && !Hit(bs[i], ino) ==> !(Live(bs[i]) && bs[i].ino == ino)
  {
    hide NameOk, LiveIn, Counted, FindIno, Alone;
    assert forall i :: 0 <= i < PER_SECTOR ==> bs[i] == es[PER_SECTOR * k + i];
    assert k == 0 ==> Live(bs[0]) && bs[0].name == DOT;
    assert forall i :: 0 <= i < PER_SECTOR && PER_SECTOR * k + i >= 2 && Live(bs[i]) ==> !Dotty(bs[i]);
    forall i | 0 <= i < PER_SECTOR && Hit(bs[i], ino)
      ensures PER_SECTOR * k + i >= 2 && FindIno(es, ino) == PER_SECTOR * k + i
      ensures k > 0 ==> (Counted(bs, PER_SECTOR) == 1 <==> Alone(es, PER_SECTOR * k + i))
    {
      FindInoIs(es, ino, PER_SECTOR * k + i);
      if k > 0 {
        AloneIff(es, k, PER_SECTOR * k + i);
        CountedIs(es, bs, PER_SECTOR * k, PER_SECTOR);
      }
    }
  }

  datatype DeleteResult = Deleted | Missing | Hangs

  /** Deleting the only entry of an indirect block enters a loop whose index never advances. */
  function DeleteOutcome(es: seq<Entry>, ino: Word): DeleteResult
    requires |es| == SLOTS
  {
    var j := FindIno(es, ino);
    if j < 0 then Missing else if j / PER_SECTOR >= DIRECT && Alone(es, j) then Hangs else Deleted
  }

  /** A live entry for the inode, alone in an indirect block. */
  ghost predicate LoneIndirect(es: seq<Entry>, ino: Word)
    requires |es| == SLOTS
  {
    exists j: nat :: 2 <= j < SLOTS && Live(es[j]) && es[j].ino == ino && j / PER_SECTOR >= 12
      && forall q :: 0 <= q < SLOTS && q / PER_SECTOR == j / PER_SECTOR && q != j ==> !Live(es[q])
  }

  /** No live entry for the inode but "." and "..". */
  ghost predicate NoEntryFor(es: seq<Entry>, ino: Word) { forall j :: 2 <= j < |es| && Live(es[j]) ==> es[j].ino != ino }

  lemma OutcomeMeans(es: seq<Entry>, ino: Word)
    requires SlotsOk(es)
    ensures DeleteOutcome(es, ino) == Hangs <==> LoneIndirect(es, ino)
    ensures DeleteOutcome(es, ino) == Missing <==> NoEntryFor(es, ino)
  {
    hide NameOk;
    if LoneIndirect(es, ino) {
      var j: nat :| 2 <= j < SLOTS && Live(es[j]) && es[j].ino == ino && j / PER_SECTOR >= 12
      && forall q :: 0 <= q < SLOTS && q / PER_SECTOR == j / PER_SECTOR && q != j ==> !Live(es[q]);
      FindInoIs(es, ino, j);
    }
  }

  method DeleteEntry(p: Partition, n: nat, ino: Word) returns (r: DeleteResult)
    requires p.Ok() && n in p.v.nodes && n in p.v.dirs
    modifies p
    ensures var es := Slots(old(p.v).disk, old(p.v).nodes[n]);
      && r == DeleteOutcome(es, ino)
      && (r == Deleted ==> p.Ok() && Removed(old(p.v), p.v, n, FindIno(es, ino)) && Saved(old(p.v), p.v, {n}))
      && (r == Missing ==> p.v == old(p.v) && p.owner == old(p.owner))
      && (r == Hangs ==> p.v == old(p.v).(used := p.v.used))
      && (r == Hangs <==> LoneIndirect(es, ino)) && (r == Missing <==> NoEntryFor(es, ino))
  {
    hide Owned, Shaped, InodesOk, Rooted, Others, Slots, DirMap, Blk, Removed, FindIno, Alone, SlotsOk, Stamped, Saved, WithoutBlock, Rewritten, Without, Patch, Valid, LoneIndirect, NoEntryFor;
    ghost var v0, owner0 := p.v, p.owner;
    var node := p.v.nodes[n];
    DirFacts(v0, owner0, n);
    OutcomeMeans(Slots(p.v.disk, node), ino);
    ValidOwned(v0, owner0);
    BlksInside(v0, owner0, n);
    var k, found, cnt, first := FindHit(p.v.disk, node, ino);
    if found == -1 {
      return Missing;
    }
    var j, a := PER_SECTOR * k + found, Blk(p.v.disk, node, k);
    assert cnt >= 1;
    SlotSplit(k, found);
    BlkThere(v0, owner0, n, k);
    if cnt == 1 && !first {
      if k >= DIRECT {
        p.FreeBlock(a);
        return Hangs;
      }
      DeleteBlock(v0, owner0, n, j, a);
      p.v := WithoutBlock(p.v, n, k, a);
      p.owner := Without(p.owner, {a});
    } else {
      DeleteInPlace(v0, owner0, n, j);
      p.v := Rewritten(p.v, n, a, Patch(p.v.disk[a], ENTRY * found, Zeros(ENTRY)), node.size - ENTRY);
    }
    ghost var v1 := p.v;
    p.SyncInode(n);
    RemovedStored(v0, v1, p.v, n, j);
    return Deleted;
  }

  lemma ValidOwned(v: Vol, owner: Owners)
    requires Valid(v, owner)
    ensures Owned(v, owner)
  {
    hide Owned, Shaped;
  }

  lemma RemovedStored(v: Vol, w: Vol, x: Vol, n: nat, j: nat)
    requires Removed(v, w, n, j) && w.itable == v.itable && x == w.(itable := x.itable) && Stamped(w, x, n)
    ensures Removed(v, x, n, j) && Saved(v, x, {n})
  {
    hide Others, Slots, DirMap, Stamped, Saved, SameBut;
    OthersStored(v, w, n, x.itable);
    OthersSameBut(v, x, n);
    StampedSince(v, w, x, n);
    SavedOne(v, x, n);
  }

  /** Lines 263-305: the block and slot of the entry for `ino`, with what the scan of that block counted. */
  method FindHit(disk: seq<Sector>, node: Node, ino: Word) returns (k: nat, found: int, cnt: nat, first: bool)
    requires Inside(disk, node) && SlotsOk(Slots(disk, node))
    ensures found == -1 ==> FindIno(Slots(disk, node), ino) == -1
    ensures found != -1 ==> k < BLOCKS && 0 <= found < PER_SECTOR && FindIno(Slots(disk, node), ino) == PER_SECTOR * k + found >= 2
    ensures found != -1 ==> Blk(disk, node, k) != 0 && cnt >= 1 && (first <==> k == 0)
    ensures found != -1 && k > 0 ==> (cnt == 1 <==> Alone(Slots(disk, node), PER_SECTOR * k + found))
  {
    hide Slots, Blk, EntryAt, FindIno, EntriesOf, SlotsOk, Alone, Hit, Counted, AllBlocks;
    var all := AllBlocks(disk, node);
    ghost var es := Slots(disk, node);
    k := 0;
    while k < BLOCKS
      invariant 0 <= k <= BLOCKS
      invariant forall j :: 2 <= j < PER_SECTOR * k ==> !(Live(es[j]) && es[j].ino == ino)
    {
      if all[k] == 0 {
        AbsentDead(disk, node, k);
      } else {
        var ioBuf := disk[all[k]];
        BlockSlots(disk, node, k);
        ScanMeans(es, k, EntriesOf(ioBuf), ino);
        found, cnt, first := ScanBlock(ioBuf, ino);
        if found != -1 {
          return;
        }
        BlockMissed(es, k, EntriesOf(ioBuf), ino);
      }
      k := k + 1;
    }
    NoIno(es, ino);
    found, cnt, first := -1, 0, false;
  }

  lemma NoIno(es: seq<Entry>, ino: Word)
    requires |es| == SLOTS && forall j :: 2 <= j < SLOTS ==> !(Live(es[j]) && es[j].ino == ino)
    ensures FindIno(es, ino) == -1
  {
  }

  lemma BlockMissed(es: seq<Entry>, k: nat, bs: seq<Entry>, ino: Word)
    requires SlotsOk(es) && k < BLOCKS && es[PER_SECTOR * k..PER_SECTOR * (k + 1)] == bs
    requires forall i :: 0 <= i < PER_SECTOR ==> !Hit(bs[i], ino)
    ensures forall j :: 2 <= j && PER_SECTOR * k <= j < PER_SECTOR * (k + 1) ==> !(Live(es[j]) && es[j].ino == ino)
  {
    hide NameOk, LiveIn, Counted, FindIno, Alone;
    ScanMeans(es, k, bs, ino);
    forall j | 2 <= j && PER_SECTOR * k <= j < PER_SECTOR * (k + 1) ensures !(Live(es[j]) && es[j].ino == ino) {
      assert bs[j - PER_SECTOR * k] == es[j];
    }
  }

  lemma AbsentDead(disk: seq<Sector>, node: Node, k: nat)
    requires k < BLOCKS && Blk(disk, node, k) == 0
    ensures forall j :: PER_SECTOR * k <= j < PER_SECTOR * (k + 1) ==> Slots(disk, node)[j] == DEAD
  {
    hide Blk, EntryAt;
    forall j | PER_SECTOR * k <= j < PER_SECTOR * (k + 1) ensures SlotAt(disk, node, j) == DEAD {
      assert j / PER_SECTOR == k;
    }
  }

  lemma BlkThere(v: Vol, owner: Owners, n: nat, k: nat)
    requires Owned(v, owner) && n in v.nodes && k < BLOCKS && Blk(v.disk, v.nodes[n], k) != 0
    ensures v.base <= Blk(v.disk, v.nodes[n], k) < v.base + v.cnt <= v.base + |v.used| && Blk(v.disk, v.nodes[n], k) < |v.disk|
  {
    hide Backed, Ref;
    RefRange(v, owner, n, Place(k));
  }

  lemma DirFacts(v: Vol, owner: Owners, n: nat)
    requires Valid(v, owner) && n in v.nodes && n in v.dirs
    ensures SlotsOk(Slots(v.disk, v.nodes[n])) && v.nodes[n].size >= 2 * ENTRY
  {
    hide Owned, Slots, DirBlocks, SlotsOk;
    DirShapeAt(v, n);
    EmptyExactly(Slots(v.disk, v.nodes[n]));
  }

  // ---- search_dir_entry

  /** Some slot of a block that is there is free. */
  predicate HasHole(disk: seq<Sector>, node: Node) {
    exists j: nat :: j < SLOTS && Blk(disk, node, j / PER_SECTOR) != 0 && !Live(Slots(disk, node)[j])
  }

  method NameSlot(s: Sector, name: Name) returns (i: nat)
    ensures i <= PER_SECTOR && forall q :: 0 <= q < i ==> EntriesOf(s)[q].name != name
    ensures i < PER_SECTOR ==> EntriesOf(s)[i].name == name
  {
    hide EntryAt;
    i := 0;
    while i < PER_SECTOR && EntryAt(s, ENTRY * i).name != name
      invariant i <= PER_SECTOR && forall q :: 0 <= q < i ==> EntriesOf(s)[q].name != name
    {
      i := i + 1;
    }
  }

  /** No slot below `m` that lies in a block that is there carries `name`. */
  predicate Unnamed(disk: seq<Sector>, node: Node, name: Name, m: nat) {
    forall j: nat :: j < m && j < SLOTS && Blk(disk, node, j / PER_SECTOR) != 0 ==> Slots(disk, node)[j].name != name
  }

  lemma UnnamedBlock(disk: seq<Sector>, node: Node, name: Name, k: nat)
    requires k < BLOCKS && Unnamed(disk, node, name, PER_SECTOR * k) && Blk(disk, node, k) < |disk|
    requires Blk(disk, node, k) != 0 ==> forall q :: 0 <= q < PER_SECTOR ==> EntriesOf(disk[Blk(disk, node, k)])[q].name != name
    ensures Unnamed(disk, node, name, PER_SECTOR * (k + 1))
  {
    hide Blk, Slots, EntriesOf;
    if Blk(disk, node, k) != 0 {
      BlockSlots(disk, node, k);
    }
    var es := Slots(disk, node);
    forall j: nat | j < PER_SECTOR * (k + 1) && Blk(disk, node, j / PER_SECTOR) != 0 ensures es[j].name != name {
      if j >= PER_SECTOR * k {
        assert j / PER_SECTOR == k;
        assert es[PER_SECTOR * k..PER_SECTOR * (k + 1)][j - PER_SECTOR * k] == es[j];
      }
    }
  }

  /** The search compares the names of free slots too, so it also "finds" the
      empty name, in any directory that has a free slot. */
  method SearchEntry(disk: seq<Sector>, node: Node, name: Name) returns (r: Option<Entry>)
    requires Inside(disk, node) && DirShape(disk, node)
    ensures name != [] ==> r == if name in DirMap(Slots(disk, node)) then Some(DirMap(Slots(disk, node))[name]) else None
    ensures name == [] ==> r == if HasHole(disk, node) then Some(DEAD) else None
  {
    hide Slots, Blk, EntryAt, EntriesOf, AllBlocks, Unnamed, HasHole, DirMap, DirShape;
    var all := AllBlocks(disk, node);
    var k := 0;
    assert Unnamed(disk, node, name, 0) by { UnnamedInit(disk, node, name); }
    while k < BLOCKS
      invariant 0 <= k <= BLOCKS && Unnamed(disk, node, name, PER_SECTOR * k)
    {
      if all[k] != 0 {
        var buf := disk[all[k]];
        var i := NameSlot(buf, name);
        if i < PER_SECTOR {
          FoundMeans(disk, node, name, k, i);
          return Some(EntryAt(buf, ENTRY * i));
        }
      }
      UnnamedBlock(disk, node, name, k);
      k := k + 1;
    }
    NotFoundMeans(disk, node, name);
    return None;
  }

  lemma UnnamedInit(disk: seq<Sector>, node: Node, name: Name)
    ensures Unnamed(disk, node, name, 0)
  {
  }

  lemma FoundMeans(disk: seq<Sector>, node: Node, name: Name, k: nat, i: nat)
    requires DirShape(disk, node) && k < BLOCKS && 0 < Blk(disk, node, k) < |disk| && i < PER_SECTOR
    requires EntriesOf(disk[Blk(disk, node, k)])[i].name == name
    ensures name != [] ==> name in DirMap(Slots(disk, node)) && DirMap(Slots(disk, node))[name] == EntryAt(disk[Blk(disk, node, k)], ENTRY * i)
    ensures name == [] ==> HasHole(disk, node) && EntryAt(disk[Blk(disk, node, k)], ENTRY * i) == DEAD
  {
    hide Blk, Slots, EntryAt, DirMap, NameOk, DirBlocks, LiveIn;
    BlockSlots(disk, node, k);
    var es, bs, j := Slots(disk, node), EntriesOf(disk[Blk(disk, node, k)]), PER_SECTOR * k + i;
    SlotSplit(k, i);
    assert bs[i] == es[PER_SECTOR * k..PER_SECTOR * (k + 1)][i] == es[j];
    if Live(es[j]) {
      FindIs(es, j);
    }
  }

  lemma NotFoundMeans(disk: seq<Sector>, node: Node, name: Name)
    requires DirShape(disk, node) && Unnamed(disk, node, name, SLOTS)
    ensures name != [] ==> name !in DirMap(Slots(disk, node))
    ensures name == [] ==> !HasHole(disk, node)
  {
    hide Blk, Slots, DirMap, NameOk, DirBlocks, LiveIn;
    var es := Slots(disk, node);
    InMap(es, name);
    forall j: nat | j < SLOTS && Live(es[j]) ensures Blk(disk, node, j / PER_SECTOR) != 0 {
      LiveBlockThere(disk, node, j);
    }
  }

  lemma LiveBlockThere(disk: seq<Sector>, node: Node, j: nat)
    requires j < SLOTS && Live(Slots(disk, node)[j])
    ensures 0 < Blk(disk, node, j / PER_SECTOR) < |disk|
  {
    hide Blk, EntryAt;
    assert Slots(disk, node)[j] == SlotAt(disk, node, j);
  }

  // ---- dir_is_empty, dir_remove

  /** dir_is_empty is exact. */
  method IsEmpty(node: Node, ghost disk: seq<Sector>) returns (empty: bool)
    requires DirShape(disk, node)
    ensures empty <==> DirMap(Slots(disk, node)).Keys == {DOT, DOTDOT}
    ensures empty ==> forall k :: 1 <= k < 13 ==> node.sectors[k] == 0
  {
    hide Blk, Slots, DirMap, SlotsOk, LiveIn;
    EmptyExactly(Slots(disk, node));
    empty := node.size == ENTRY * 2;
    if empty {
      EmptyBlocks(disk, node);
    }
  }

  /** An empty directory has its first block only. */
  lemma EmptyBlocks(disk: seq<Sector>, node: Node)
    requires DirShape(disk, node) && LiveIn(Slots(disk, node), SLOTS) == 2
    ensures forall k :: 1 <= k < 13 ==> node.sectors[k] == 0
  {
    hide Slots, SlotsOk, LiveIn, WordAt;
    var es := Slots(disk, node);
    EmptyExactly(es);
    forall k: nat | 1 <= k < BLOCKS ensures Blk(disk, node, k) == 0 {
      assert !BlockLive(es, k);
    }
    forall k: nat | 1 <= k < DIRECT ensures node.sectors[k] == 0 {
      assert Blk(disk, node, k) == node.sectors[k];
    }
  }

  // ---- dir_read

  /** Lines 409-425: the entry at position `pos` if it lies in this sector, and how far the count got. */
  method ReadBlock(s: Sector, start: nat, pos: nat) returns (i: nat, cur: nat)
    requires start <= pos && start % ENTRY == 0 && pos % ENTRY == 0
    ensures i <= PER_SECTOR && cur == start + ENTRY * LiveIn(EntriesOf(s), i) && cur <= pos
    ensures i < PER_SECTOR ==> Live(EntriesOf(s)[i]) && cur == pos
  {
    hide EntryAt;
    ghost var bs := EntriesOf(s);
    i, cur := 0, start;
    while i < PER_SECTOR
      invariant i <= PER_SECTOR && cur == start + ENTRY * LiveIn(bs, i) && cur <= pos
    {
      if EntryAt(s, ENTRY * i).ftype != UNKNOWN {
        if cur >= pos {
          assert cur == pos;
          return;
        }
        cur := cur + ENTRY;
      }
      i := i + 1;
    }
  }

  lemma {:induction false} LiveInSlice(es: seq<Entry>, bs: seq<Entry>, from: nat, i: nat)
    requires i <= |bs| && from + |bs| <= |es| && es[from..from + |bs|] == bs
    ensures LiveIn(es, from + i) == LiveIn(es, from) + LiveIn(bs, i)
  {
    if i > 0 {
      LiveInSlice(es, bs, from, i - 1);
      assert bs[i - 1] == es[from + i - 1];
    }
  }

  /** The entry of a directory at position `pos` in bytes: entry pos / 24 of the live ones. */
  function EntryNo(es: seq<Entry>, pos: nat): Option<Entry> {
    var live := LiveSeq(es, |es|);
    if pos / ENTRY < |live| then Some(live[pos / ENTRY]) else None
  }

  /** dir_read rescans the directory from its first block on every call. */
  method ReadAt(disk: seq<Sector>, node: Node, pos: nat) returns (r: Option<Entry>)
    requires Inside(disk, node) && DirShape(disk, node) && pos % ENTRY == 0
    ensures r == EntryNo(Slots(disk, node), pos)
  {
    hide Slots, Blk, EntryAt, EntriesOf, AllBlocks, DirBlocks, SlotsOk, LiveIn, LiveSeq, Live;
    var all := AllBlocks(disk, node);
    ghost var es := Slots(disk, node);
    LiveSeqLength(es, SLOTS);
    var blockCnt := if node.sectors[DIRECT] != 0 then BLOCKS else DIRECT;
    var k, cur := 0, 0;
    LiveInZero(es);
    while k < blockCnt
      invariant 0 <= k <= blockCnt && cur == ENTRY * LiveIn(es, PER_SECTOR * k) && cur <= pos
    {
      if pos >= node.size {
        return None;
      }
      if all[k] == 0 {
        AbsentDead(disk, node, k);
        DeadRun(es, PER_SECTOR * k, PER_SECTOR * (k + 1));
        k := k + 1;
        continue;
      }
      var buf := disk[all[k]];
      var i;
      i, cur := ReadBlock(buf, cur, pos);
      BlockSlots(disk, node, k);
      LiveInSlice(es, EntriesOf(buf), PER_SECTOR * k, i);
      if i < PER_SECTOR {
        assert EntriesOf(buf)[i] == es[PER_SECTOR * k..PER_SECTOR * (k + 1)][i] == es[PER_SECTOR * k + i];
        LiveSeqAt(es, PER_SECTOR * k + i, SLOTS);
        return Some(EntryAt(buf, ENTRY * i));
      }
      k := k + 1;
    }
    NoTableDead(disk, node, k);
    return None;
  }

  lemma LiveInZero(es: seq<Entry>)
    ensures LiveIn(es, 0) == 0
  {
  }

  lemma DeadRun(es: seq<Entry>, m: nat, n: nat)
    requires m <= n <= |es| && forall j :: m <= j < n ==> es[j] == DEAD
    ensures LiveIn(es, n) == LiveIn(es, m)
  {
    NoneLive(es, m, n);
  }

  /** Without a table there is nothing after the direct blocks. */
  lemma NoTableDead(disk: seq<Sector>, node: Node, k: nat)
    requires k == BLOCKS || (k == DIRECT && node.sectors[DIRECT] == 0)
    ensures LiveIn(Slots(disk, node), PER_SECTOR * k) == LiveIn(Slots(disk, node), SLOTS)
  {
    hide LiveIn, WordAt, EntryAt;
    if k == DIRECT {
      var es := Slots(disk, node);
      forall j | PER_SECTOR * k <= j < SLOTS ensures es[j] == DEAD {
        assert es[j] == SlotAt(disk, node, j) && DIRECT <= j / PER_SECTOR < BLOCKS;
      }
      DeadRun(es, PER_SECTOR * k, SLOTS);
    }
  }

  class OpenDir {
    var pos: nat       // dir_pos
    const ino: nat

    constructor (ino: nat)
      ensures pos == 0 && this.ino == ino
    {
      this.ino, pos := ino, 0;
    }

    method Read(disk: seq<Sector>, node: Node) returns (r: Option<Entry>)
      requires Inside(disk, node) && DirShape(disk, node) && pos % ENTRY == 0
      modifies this
      ensures r == EntryNo(Slots(disk, node), old(pos))
      ensures pos == old(pos) + if r.Some? then ENTRY else 0
    {
      r := ReadAt(disk, node, pos);
      if r.Some? {
        pos := pos + ENTRY;
      }
    }
  }

  /** Reading from position 0 until nothing is returned yields every live entry, once and in slot order. */
  method ListAll(disk: seq<Sector>, node: Node, ino: nat) returns (out: seq<Entry>)
    requires Inside(disk, node) && DirShape(disk, node)
    ensures out == LiveSeq(Slots(disk, node), SLOTS)
    ensures |out| == |DirMap(Slots(disk, node))|
    ensures forall e :: e in out <==> e.name in DirMap(Slots(disk, node)) && DirMap(Slots(disk, node))[e.name] == e
  {
    hide Inside, Slots, LiveSeq, DirMap, DirBlocks, SlotsOk, LiveIn;
    var d := new OpenDir(ino);
    ghost var live := LiveSeq(Slots(disk, node), SLOTS);
    ListExact(disk, node);
    out := [];
    while true
      invariant |out| <= |live| && out == live[..|out|] && d.pos == ENTRY * |out|
      decreases |live| - |out|
    {
      var r := d.Read(disk, node);
      if r.None? {
        assert live[..|live|] == live;
        return;
      }
      assert live[..|out| + 1] == live[..|out|] + [live[|out|]];
      out := out + [r.value];
    }
  }

  lemma ListExact(disk: seq<Sector>, node: Node)
    requires DirShape(disk, node)
    ensures var es := Slots(disk, node);
      var live := LiveSeq(es, SLOTS);
      && |live| == |DirMap(es)|
      && forall e :: e in live <==> e.name in DirMap(es) && DirMap(es)[e.name] == e
  {
    hide Slots, LiveSeq, DirMap, DirBlocks, LiveIn, NameOk;
    LiveSeqMap(Slots(disk, node));
  }
}
