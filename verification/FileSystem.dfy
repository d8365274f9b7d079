/** fs/file.c and fs/fs.c: creating and removing files and directories, with the
    rollbacks the source performs and the one it leaves out. */
module FileSystem {
  import opened Sectors
  import opened Bitmaps
  import opened DirSlots
  import opened Volume
  import Directory
  import InodeTable

  function EntriesIn(v: Vol, n: nat): seq<Entry>
    requires n in v.nodes
  {
    Slots(v.disk, v.nodes[n])
  }

  /** Every entry of every directory names an inode in use. */
  ghost predicate Named(v: Vol) {
    forall n: nat, j: nat :: n in v.nodes && n in v.dirs && j < SLOTS && Live(EntriesIn(v, n)[j]) ==>
      EntriesIn(v, n)[j].ino as nat in v.nodes
  }

  /** Every inode but those in `except` is there before and after, with the same meaning. */
  ghost predicate Unchanged(v: Vol, w: Vol, a: nat, b: nat) {
    forall m :: m != a && m != b ==>
      && (m in w.nodes <==> m in v.nodes) && (m in w.dirs <==> m in v.dirs)
      && (m in v.nodes ==> w.nodes[m] == v.nodes[m] && MeaningOf(w, m) == MeaningOf(v, m))
  }

  /** `w` is `v` with inode `n`, until now free, set up as `node`. */
  predicate NewInode(v: Vol, w: Vol, n: nat, node: Node, isDir: bool) {
    && n < |v.inodes| && n !in v.nodes
    && w == v.(used := w.used, disk := w.disk, inodes := v.inodes[n := true],
      nodes := v.nodes[n := node], dirs := if isDir then v.dirs + {n} else v.dirs)
  }

  lemma NewInodeOk(v: Vol, owner: Owners, n: nat, w: Vol, owner2: Owners, node: Node, isDir: bool)
    requires Valid(v, owner) && NewInode(v, w, n, node, isDir) && Owned(w, owner2)
    requires OthersSame(v, owner, w.disk, n) && ShapeOf(w.disk, node, isDir)
    ensures Valid(w, owner2) && Others(v, w, n)
  {
    hide Owned, OthersSame, ShapeOf, Contents, Slots;
    forall m | m in v.nodes
      ensures ShapeOf(w.disk, w.nodes[m], m in w.dirs) && MeaningOf(w, m) == MeaningOf(v, m)
    {
      OthersFrame(v, owner, w.disk, n, m);
    }
    assert w.dirs <= w.nodes.Keys;
  }

  /** A new file refers to no block. */
  lemma NewFileOk(v: Vol, owner: Owners, n: nat, w: Vol)
    requires Valid(v, owner) && NewInode(v, w, n, NewNode(), false) && w.used == v.used && w.disk == v.disk
    ensures Valid(w, owner) && Others(v, w, n)
  {
    hide Linked, Backed, Marked, Shaped, InodesOk, Rooted, Others;
    AddInv(v, owner, n);
    forall k: nat | k < BLOCKS ensures Blk(w.disk, NewNode(), k) == 0 {
    }
    assert w == v.(nodes := w.nodes, inodes := w.inodes);
    NewInodeOk(v, owner, n, w, owner, NewNode(), false);
  }

  // ---- the first block of a directory

  function DotSector(self: Word, parent: Word): Sector {
    Patch(Patch(Zeros(SECTOR), 0, EntryBytes(Entry(DOT, self, DIRECTORY))), ENTRY, EntryBytes(Entry(DOTDOT, parent, DIRECTORY)))
  }

  lemma DotEntries(self: Word, parent: Word)
    ensures forall i :: 0 <= i < PER_SECTOR ==> EntriesOf(DotSector(self, parent))[i] == DotSlots(self, parent)[i]
  {
    hide EntryAt, EntryBytes, Patch;
    var z := Zeros(SECTOR);
    EntriesOfZeros();
    EntriesPut(z, 0, Entry(DOT, self, DIRECTORY));
    var s := Patch(z, 0, EntryBytes(Entry(DOT, self, DIRECTORY)));
    EntriesPut(s, 1, Entry(DOTDOT, parent, DIRECTORY));
  }

  function DirNode(lba: Word): Node { Inode(2 * ENTRY, NewNode().sectors[0 := lba]) }

  function DotSlots(self: Word, parent: Word): (es: seq<Entry>)
    ensures |es| == SLOTS
  {
    seq(SLOTS, j => if j == 0 then Entry(DOT, self, DIRECTORY) else if j == 1 then Entry(DOTDOT, parent, DIRECTORY) else DEAD)
  }

  lemma DotSlotsOk(self: Word, parent: Word)
    ensures SlotsOk(DotSlots(self, parent)) && LiveIn(DotSlots(self, parent), SLOTS) == 2
    ensures DirMap(DotSlots(self, parent)).Keys == {DOT, DOTDOT}
  {
    hide LiveIn, DirMap, Find;
    EmptyExactly(DotSlots(self, parent));
  }

  lemma DirNodeBlk(disk: seq<Sector>, lba: Word, k: nat)
    requires k < BLOCKS
    ensures Blk(disk, DirNode(lba), k) == if k == 0 then lba else 0
  {
  }

  lemma DirNodeShape(disk: seq<Sector>, lba: Word, self: Word, parent: Word)
    requires 0 < lba < |disk| && disk[lba] == DotSector(self, parent)
    ensures Slots(disk, DirNode(lba)) == DotSlots(self, parent) && DirShape(disk, DirNode(lba))
  {
    hide Blk, EntryAt, DotSector, SlotsOk, LiveIn;
    var node := DirNode(lba);
    DotEntries(self, parent);
    DotSlotsOk(self, parent);
    forall k: nat | k < BLOCKS ensures Blk(disk, node, k) == if k == 0 then lba else 0 { DirNodeBlk(disk, lba, k); }
    forall j: nat | j < SLOTS ensures SlotAt(disk, node, j) == DotSlots(self, parent)[j] {
      if j / PER_SECTOR == 0 {
        assert EntriesOf(disk[lba])[j] == EntryAt(disk[lba], ENTRY * j);
      }
    }
  }

  /** `w` is `v` with a directory made of block `lba` as inode `n`. */
  predicate NewDir(v: Vol, n: nat, parent: Word, lba: Word, w: Vol) {
    && n < 0x1_0000_0000 && NewInode(v, w, n, DirNode(lba), true) && lba < |v.disk|
    && Took(v, v.(used := w.used), lba) && w.disk == v.disk[lba := DotSector(n, parent)]
  }

  lemma NewDirOwned(v: Vol, owner: Owners, n: nat, parent: Word, lba: Word, w: Vol)
    requires Owned(v, owner) && NewDir(v, n, parent, lba, w)
    ensures Owned(w, owner[lba := Role(n, 0)]) && OthersSame(v, owner, w.disk, n)
  {
    hide Linked, Backed, Marked, DotSector, Ref, DirNode, Taken;
    AddInv(v, owner, n);
    var u := v.(nodes := v.nodes[n := NewNode()]);
    var got: map<nat, nat> := map[lba as nat := 0];
    Directory.TakeOne(v, v.(used := w.used), lba, 0);
    Directory.TakeOne(u, u.(used := w.used), lba, 0);
    GotFresh(v, owner, w.used, got);
    assert lba as nat in got;
    assert Gained(u.disk, NewNode(), w.disk, DirNode(lba), got) by { DirGained(u.disk, w.disk, lba); }
    AttachInv(u, owner, n, w.used, w.disk, DirNode(lba), got);
    assert owner + Roles(n, got) == owner[lba := Role(n, 0)];
    assert u.nodes[n := DirNode(lba)] == w.nodes;
  }

  lemma NewDirOk(v: Vol, owner: Owners, n: nat, parent: Word, lba: Word, w: Vol)
    requires Valid(v, owner) && NewDir(v, n, parent, lba, w)
    ensures Valid(w, owner[lba := Role(n, 0)]) && Others(v, w, n) && EntriesIn(w, n) == DotSlots(n, parent)
  {
    hide Linked, Backed, Marked, Shaped, InodesOk, Rooted, Others, DotSector, ShapeOf, Slots, DotSlots, DirNode, OthersSame;
    NewDirOwned(v, owner, n, parent, lba, w);
    DirNodeShape(w.disk, lba, n, parent);
    ShapeDir(w.disk, DirNode(lba));
    NewInodeOk(v, owner, n, w, owner[lba := Role(n, 0)], DirNode(lba), true);
  }

  lemma ShapeDir(disk: seq<Sector>, node: Node)
    requires DirShape(disk, node)
    ensures ShapeOf(disk, node, true)
  {
    hide DirShape;
  }

  lemma DirGained(disk: seq<Sector>, disk2: seq<Sector>, lba: Word)
    ensures Gained(disk, NewNode(), disk2, DirNode(lba), map[lba as nat := 0])
  {
  }

  // ---- file_create and sys_mkdir

  /** inode_bitmap_alloc: the first free inode number, or -1. */
  function FreeInode(v: Vol): int { FirstRun(v.inodes, 1) }

  lemma FreeInodeIs(v: Vol, owner: Owners)
    requires Valid(v, owner)
    ensures FreeInode(v) == -1 || (0 < FreeInode(v) < MAX_FILES && FreeInode(v) !in v.nodes && FreeInode(v) !in v.dirs)
  {
    hide Owned, Shaped;
  }

  /** Inode `k` is the lowest number that is free. */
  predicate LowestFree(v: Vol, k: nat) { k < |v.inodes| && !v.inodes[k] && forall i :: 0 <= i < k ==> v.inodes[i] }

  predicate NoneFree(v: Vol) { forall k :: 0 <= k < |v.inodes| ==> v.inodes[k] }

  lemma FreeInodeMeans(v: Vol)
    ensures FreeInode(v) == -1 <==> NoneFree(v)
    ensures FreeInode(v) >= 0 ==> LowestFree(v, FreeInode(v))
    ensures FreeInode(v) >= -1
  {
    assert FreeInode(v) >= 0 ==> !v.inodes[FreeInode(v)];
    forall k | 0 <= k < |v.inodes| ensures !v.inodes[k] ==> 0 <= FreeInode(v) <= k {
      assert !v.inodes[k] <==> ClearRun(v.inodes, k, 1);
    }
  }

  /** What stops an entry from being added to directory `n`: no slot, or no block for one. */
  predicate NoRoom(v: Vol, n: nat)
    requires n in v.nodes
  {
    var j := Directory.FirstDead(EntriesIn(v, n));
    j < 0 || Free(v.used) < Directory.EntryNeed(v.disk, v.nodes[n], j)
  }

  /** A name that may be added to directory `n`. */
  predicate NewName(v: Vol, n: nat, name: Name) {
    n in v.nodes && n in v.dirs && NameOk(name) && name != [] && name !in DirMap(EntriesIn(v, n))
  }

  lemma NewEntryFor(v: Vol, parent: nat, e: Entry)
    requires Named(v) && NewName(v, parent, e.name) && e.ino as nat !in v.nodes && Live(e)
    ensures Directory.NewEntry(EntriesIn(v, parent), e)
  {
    hide DirMap, NameOk, Slots;
  }

  lemma SameNode(v: Vol, w: Vol, n: nat, m: nat)
    requires Others(v, w, n) && m in v.nodes && m != n && m in v.dirs
    ensures m in w.nodes && m in w.dirs && w.nodes[m] == v.nodes[m] && EntriesIn(w, m) == EntriesIn(v, m)
  {
    hide Slots, Contents;
    assert MeaningOf(w, m) == MeaningOf(v, m);
  }

  /** An inode that `Others` leaves alone needs the same blocks for its next entry. */
  lemma SameNeed(v: Vol, w: Vol, m: nat, owner: Owners)
    requires Owned(v, owner) && m in v.nodes && m in w.nodes && w.nodes[m] == v.nodes[m] && SameFor(v.disk, w.disk, owner, m)
    ensures forall k: nat :: k < BLOCKS ==> Blk(w.disk, w.nodes[m], k) == Blk(v.disk, v.nodes[m], k)
  {
    hide Owned, SameFor, Blk;
    forall k: nat | k < BLOCKS ensures Blk(w.disk, w.nodes[m], k) == Blk(v.disk, v.nodes[m], k) {
      BlkFrame(v, owner, w.disk, m, k);
    }
  }

  lemma UnchangedBy(v: Vol, u: Vol, w: Vol, n: nat, parent: nat)
    requires Others(v, u, n) && Others(u, w, parent)
    ensures Unchanged(v, w, n, parent)
  {
    hide Slots, Contents;
  }

  /** Names stay good when one directory gains an entry for an inode in use. */
  lemma NamedAdded(v: Vol, u: Vol, w: Vol, n: nat, parent: nat, j: nat, e: Entry)
    requires Named(v) && Others(v, u, n) && n in u.nodes && parent != n && parent in v.nodes && parent in v.dirs
    requires n in u.dirs ==> forall i: nat :: i < SLOTS && Live(EntriesIn(u, n)[i]) ==> EntriesIn(u, n)[i].ino as nat in u.nodes
    requires Directory.Added(u, w, parent, j, e) && e.ino as nat == n
    ensures Named(w)
  {
    hide Slots, Contents, DirMap;
    SameNode(v, u, n, parent);
    forall m: nat, i: nat | m in w.nodes && m in w.dirs && i < SLOTS && Live(EntriesIn(w, m)[i])
      ensures EntriesIn(w, m)[i].ino as nat in w.nodes
    {
      var x := EntriesIn(w, m)[i].ino as nat;
      if m == parent {
        if i == j {
          assert x == n;
        } else {
          assert EntriesIn(w, m)[i] == EntriesIn(v, m)[i];
          assert x in v.nodes;
        }
      } else if m == n {
        SameNode(u, w, parent, m);
        assert EntriesIn(w, m)[i] == EntriesIn(u, n)[i];
        assert x in u.nodes;
      } else {
        SameNode(v, u, n, m);
        SameNode(u, w, parent, m);
        assert EntriesIn(w, m)[i] == EntriesIn(v, m)[i];
        assert x in v.nodes;
      }
      assert x != n ==> x in u.nodes;
    }
  }

  /** Directory `n` holds `e` in what was its first free slot, and is otherwise the same. */
  predicate EntryAdded(v: Vol, w: Vol, n: nat, e: Entry)
    requires n in v.nodes && n in w.nodes
  {
    var j := Directory.FirstDead(EntriesIn(v, n));
    0 <= j < SLOTS && EntriesIn(w, n) == EntriesIn(v, n)[j := e]
  }

  /** The first free descriptor of a process, after the three standard ones; -1 if there is none. */
  function FreeFd(fds: seq<int>, from: nat := 3): (fd: int)
    requires from <= |fds|
    ensures fd == -1 || (from <= fd < |fds| && fds[fd] == -1)
    ensures forall i :: from <= i < |fds| && fds[i] == -1 ==> from <= fd <= i
    decreases |fds| - from
  {
    if from == |fds| then -1 else if fds[from] == -1 then from else FreeFd(fds, from + 1)
  }

  const FDS: nat := 8

  /** pcb_fd_install: place `g` of the table of open files goes to the first free descriptor. */
  method PcbFdInstall(fds: seq<int>, g: int) returns (fd: int, fds2: seq<int>)
    requires |fds| == FDS
    ensures fd == FreeFd(fds) && fds2 == if fd == -1 then fds else fds[fd := g]
  {
    fd, fds2 := 3, fds;
    while fd < FDS
      invariant 3 <= fd <= FDS && fds2 == fds && forall i :: 3 <= i < fd ==> fds[i] != -1
    {
      if fds[fd] == -1 {
        fds2 := fds[fd := g];
        return;
      }
      fd := fd + 1;
    }
    fd := -1;
  }

  /** file_create: the inode number is given back when a later step fails. `g` is
      the free place in the table of open files, -1 if there is none. The file
      is there also when the last step, the descriptor, fails. */
  method CreateFile(p: Partition, parent: nat, name: Name, g: int, fds: seq<int>) returns (r: int, fd: int, fds2: seq<int>)
    requires p.Ok() && Named(p.v) && NewName(p.v, parent, name) && InHand(p.v, parent) && |fds| == FDS
    modifies p
    ensures r == if FreeInode(old(p.v)) < 0 || g == -1 || NoRoom(old(p.v), parent) then -1 else FreeInode(old(p.v))
    ensures r != -1 <==> !NoneFree(old(p.v)) && g != -1 && Directory.RoomFor(old(p.v), parent, Free(old(p.v).used))
    ensures r != -1 ==> 0 <= r && LowestFree(old(p.v), r)
    ensures fd == if r == -1 then -1 else FreeFd(fds)
    ensures fds2 == if fd == -1 then fds else fds[fd := g]
    ensures p.Ok()
    ensures r == -1 ==> p.v == old(p.v)
    ensures r != -1 ==> r !in old(p.v).nodes && r in p.v.nodes && r !in p.v.dirs && Contents(p.v.disk, p.v.nodes[r]) == []
    ensures r != -1 ==> Named(p.v) && Unchanged(old(p.v), p.v, r, parent) && parent in p.v.nodes
    ensures r != -1 ==> DirMap(EntriesIn(p.v, parent)) == DirMap(EntriesIn(old(p.v), parent))[name := Entry(name, r, REGULAR)]
    ensures r != -1 ==> EntryAdded(old(p.v), p.v, parent, Entry(name, r, REGULAR)) && p.v.dirs == old(p.v).dirs
    ensures r != -1 ==> Saved(old(p.v), p.v, {parent, r as nat})
    ensures r != -1 && TableOk(old(p.v)) && Persistent(old(p.v)) ==> (Persistent(p.v) <==> r < 256)
  {
    hide Owned, Shaped, InodesOk, Rooted, Others, Slots, DirMap, NameOk, Named, Contents, Free, Directory.NewEntry, Directory.EntryNeed, Directory.FirstDead, Unchanged, Stamped, Saved, EntryAdded, TableOk, Persistent, InHand, Valid, Directory.RoomFor, Directory.FullDir, LowestFree, NoneFree;
    ghost var v0, owner0 := p.v, p.owner;
    FreeInodeIs(v0, owner0);
    FreeInodeMeans(v0);
    Directory.RoomMeans(v0, owner0, parent, Free(v0.used));
    var n := FreeInode(p.v);
    if n == -1 {
      return -1, -1, fds;
    }
    InodeBound(v0, owner0);
    p.v := p.v.(inodes := p.v.inodes[n := true]);
    if g == -1 {
      p.v := p.v.(inodes := p.v.inodes[n := false]);
      assert p.v.inodes == v0.inodes;
      return -1, -1, fds;
    }
    p.v := p.v.(nodes := p.v.nodes[n := NewNode()]);
    NewFileOk(v0, owner0, n, p.v);
    var e := Entry(name, n, REGULAR);
    NewEntryFor(v0, parent, e);
    SameNode(v0, p.v, n, parent);
    ghost var v1 := p.v;
    var ok := Directory.InsertEntry(p, parent, e);
    if ok != Directory.Inserted {
      p.v := p.v.(inodes := p.v.inodes[n := false], nodes := p.v.nodes - {n});
      assert p.v.inodes == v0.inodes && p.v.nodes == v0.nodes;
      return -1, -1, fds;
    }
    var j := Directory.FirstDead(EntriesIn(v0, parent));
    FileAdded(v0, v1, p.v, n, parent, j, e);
    ghost var v2 := p.v;
    p.SyncInode(parent);
    ghost var v3 := p.v;
    p.SyncInode(n);
    StoredBoth(v0, v2, v3, p.v, parent, n, e);
    assert {n as nat, parent} == {parent, n as nat};
    r := n;
    fd, fds2 := PcbFdInstall(fds, g);
  }

  /** Parent and child are stored after everything else is in place. */
  lemma StoredBoth(v: Vol, w: Vol, u: Vol, x: Vol, parent: nat, n: nat, e: Entry)
    requires w.itable == v.itable && u == w.(itable := u.itable) && x == u.(itable := x.itable)
    requires parent != n && parent in v.nodes && parent in w.nodes && n in w.nodes
    requires Stamped(w, u, parent) && Stamped(u, x, n) && Unchanged(v, w, n, parent) && Named(w) && EntryAdded(v, w, parent, e)
    ensures Unchanged(v, x, n, parent) && Named(x) && EntryAdded(v, x, parent, e) && Saved(v, x, {parent, n})
    ensures TableOk(v) && Persistent(v) ==> (Persistent(x) <==> n < 256)
  {
    hide Slots, Contents, Stamped, Saved, TableOk, Persistent, Directory.FirstDead;
    assert forall m :: m in w.nodes ==> MeaningOf(x, m) == MeaningOf(w, m);
    assert forall m :: m in w.nodes ==> EntriesIn(x, m) == EntriesIn(w, m);
    StampedSince(v, w, u, parent);
    assert SameBut(v, x, {parent, n});
    SavedTwo(v, u, x, parent, n);
    if TableOk(v) && Persistent(v) {
      LowNumber(v, parent);
      PersistentExactly(v, x, {parent, n});
    }
  }

  lemma LowNumber(v: Vol, n: nat)
    requires TableOk(v) && Persistent(v) && n in v.nodes
    ensures n < 256
  {
    hide SlotOf;
    assert Reopens(v, n);
  }

  lemma InodeBound(v: Vol, owner: Owners)
    requires Valid(v, owner)
    ensures |v.inodes| == MAX_FILES && FreeInode(v) < MAX_FILES && (FreeInode(v) >= 0 ==> !v.inodes[FreeInode(v)])
  {
    hide Owned, Shaped;
  }

  lemma FileAdded(v: Vol, u: Vol, w: Vol, n: nat, parent: nat, j: nat, e: Entry)
    requires Named(v) && Others(v, u, n) && n in u.nodes && n !in u.dirs && u.nodes[n] == NewNode()
    requires parent in v.nodes && parent in v.dirs && parent != n && n !in v.nodes
    requires Directory.Added(u, w, parent, j, e) && e.ino as nat == n && j == Directory.FirstDead(EntriesIn(v, parent))
    ensures parent in w.nodes && EntryAdded(v, w, parent, e)
    ensures Named(w) && Unchanged(v, w, n, parent) && n in w.nodes && n !in w.dirs && w.nodes[n] == NewNode()
    ensures Contents(w.disk, w.nodes[n]) == []
    ensures parent in w.nodes && DirMap(EntriesIn(w, parent)) == DirMap(EntriesIn(v, parent))[e.name := e]
  {
    hide Slots, DirMap, Named, Others, Unchanged;
    NamedAdded(v, u, w, n, parent, j, e);
    UnchangedBy(v, u, w, n, parent);
    SameNode(v, u, n, parent);
  }

  datatype MakeResult = Made(ino: nat) | NoInode | NoBlock | NoEntry

  function MakeOutcome(v: Vol, parent: nat): MakeResult
    requires parent in v.nodes
  {
    var j := Directory.FirstDead(EntriesIn(v, parent));
    if FreeInode(v) < 0 then NoInode
    else if Free(v.used) == 0 then NoBlock
    else if j < 0 || Free(v.used) - 1 < Directory.EntryNeed(v.disk, v.nodes[parent], j) then NoEntry
    else Made(FreeInode(v))
  }

  /** sys_mkdir: the rollback gives the inode number back but not the block, so
      the volume is left inconsistent exactly when the entry cannot be added
      after the block has been taken. */
  method MakeDir(p: Partition, parent: nat, name: Name) returns (r: MakeResult)
    requires p.Ok() && Named(p.v) && NewName(p.v, parent, name) && InHand(p.v, parent)
    modifies p
    ensures r == MakeOutcome(old(p.v), parent)
    ensures r == NoInode <==> NoneFree(old(p.v))
    ensures r == NoBlock <==> !NoneFree(old(p.v)) && Free(old(p.v).used) == 0
    ensures r.Made? <==> !NoneFree(old(p.v)) && Free(old(p.v).used) > 0 && Directory.RoomFor(old(p.v), parent, Free(old(p.v).used) - 1)
    ensures r.Made? ==> LowestFree(old(p.v), r.ino)
    ensures Sound(p.v) <==> r != NoEntry
    ensures r != NoEntry ==> p.Ok()
    ensures r == NoInode || r == NoBlock ==> p.v == old(p.v)
    ensures r.Made? ==> Named(p.v) && r.ino !in old(p.v).nodes && r.ino in p.v.nodes && r.ino in p.v.dirs
    ensures r.Made? ==> EntriesIn(p.v, r.ino) == DotSlots(r.ino, parent)
    ensures r.Made? ==> Unchanged(old(p.v), p.v, r.ino, parent) && parent in p.v.nodes
    ensures r.Made? ==> DirMap(EntriesIn(p.v, parent)) == DirMap(EntriesIn(old(p.v), parent))[name := Entry(name, r.ino, DIRECTORY)]
    ensures r.Made? ==> EntryAdded(old(p.v), p.v, parent, Entry(name, r.ino, DIRECTORY)) && p.v.dirs == old(p.v).dirs + {r.ino}
    ensures r.Made? ==> Saved(old(p.v), p.v, {parent, r.ino})
    ensures r.Made? && TableOk(old(p.v)) && Persistent(old(p.v)) ==> (Persistent(p.v) <==> r.ino < 256)
  {
    hide Owned, Shaped, InodesOk, Rooted, Others, Slots, DirMap, NameOk, Named, Contents, Free, Directory.NewEntry, Directory.EntryNeed, Directory.FirstDead, Unchanged, Sound, DotSlots, DotSector, Stamped, Saved, EntryAdded, TableOk, Persistent, InHand, Valid, Directory.RoomFor, Directory.FullDir, LowestFree, NoneFree;
    ghost var v0, owner0 := p.v, p.owner;
    FreeInodeIs(v0, owner0);
    FreeInodeMeans(v0);
    if Free(v0.used) > 0 { Directory.RoomMeans(v0, owner0, parent, Free(v0.used) - 1); }
    ParentBound(v0, owner0, parent);
    var n := FreeInode(p.v);
    SoundNow(v0, owner0);
    if n == -1 {
      return NoInode;
    }
    InodeBound(v0, owner0);
    p.v := p.v.(inodes := p.v.inodes[n := true]);
    Directory.ValidOwned(v0, owner0);
    Directory.RoomOf(v0, owner0, parent);
    var lba := p.AllocBlock();
    if lba == -1 {
      p.v := p.v.(inodes := p.v.inodes[n := false]);
      assert p.v.inodes == v0.inodes;
      return NoBlock;
    }
    p.v := p.v.(disk := p.v.disk[lba := DotSector(n, parent)], nodes := p.v.nodes[n := DirNode(lba)], dirs := p.v.dirs + {n});
    ghost var v1 := p.v;
    assert NewDir(v0, n, parent, lba, v1);
    NewDirOk(v0, owner0, n, parent, lba, v1);
    p.owner := p.owner[lba := Role(n, 0)];
    var e := Entry(name, n, DIRECTORY);
    NewEntryFor(v0, parent, e);
    SameNode(v0, v1, n, parent);
    NeedKept(v0, owner0, n, parent, lba, v1);
    var ok := Directory.InsertEntry(p, parent, e);
    if ok != Directory.Inserted {
      p.v := p.v.(inodes := p.v.inodes[n := false], nodes := p.v.nodes - {n}, dirs := p.v.dirs - {n});
      assert p.v.inodes == v0.inodes && p.v.nodes == v0.nodes && p.v.dirs == v0.dirs;
      NotSoundLeak(v0, owner0, p.v, lba);
      return NoEntry;
    }
    var j := Directory.FirstDead(EntriesIn(v0, parent));
    DirAdded(v0, v1, p.v, n, parent, j, e);
    ghost var v2 := p.v;
    p.SyncInode(parent);
    ghost var v3 := p.v;
    p.SyncInode(n);
    StoredBoth(v0, v2, v3, p.v, parent, n, e);
    SoundNow(p.v, p.owner);
    return Made(n);
  }

  lemma ParentBound(v: Vol, owner: Owners, parent: nat)
    requires Valid(v, owner) && parent in v.nodes
    ensures parent < 0x1_0000_0000
  {
    hide Owned, Shaped;
  }

  lemma NeedKept(v: Vol, owner: Owners, n: nat, parent: nat, lba: Word, w: Vol)
    requires Valid(v, owner) && parent < 0x1_0000_0000 && NewDir(v, n, parent, lba, w) && parent in v.nodes && parent in w.nodes
    requires w.nodes[parent] == v.nodes[parent]
    ensures forall j: int :: Directory.EntryNeed(w.disk, w.nodes[parent], j) == Directory.EntryNeed(v.disk, v.nodes[parent], j)
  {
    hide Owned, DotSector, Blk, Shaped;
    NewDirOwned(v, owner, n, parent, lba, w);
    SameNeed(v, w, parent, owner);
  }

  lemma DirAdded(v: Vol, u: Vol, w: Vol, n: nat, parent: nat, j: nat, e: Entry)
    requires Named(v) && Others(v, u, n) && n in u.nodes && n in u.dirs && n < 0x1_0000_0000 && parent < 0x1_0000_0000
    requires EntriesIn(u, n) == DotSlots(n, parent)
    requires parent in v.nodes && parent in v.dirs && parent != n && n !in v.nodes
    requires Directory.Added(u, w, parent, j, e) && e.ino as nat == n && j == Directory.FirstDead(EntriesIn(v, parent))
    ensures parent in w.nodes && EntryAdded(v, w, parent, e)
    ensures Named(w) && Unchanged(v, w, n, parent) && n in w.nodes && n in w.dirs && EntriesIn(w, n) == DotSlots(n, parent)
    ensures parent in w.nodes && DirMap(EntriesIn(w, parent)) == DirMap(EntriesIn(v, parent))[e.name := e]
  {
    hide Slots, DirMap, Named, Unchanged, Contents;
    SameNode(v, u, n, parent);
    SameNode(u, w, parent, n);
    NamedAdded(v, u, w, n, parent, j, e);
    UnchangedBy(v, u, w, n, parent);
  }

  // ---- sys_unlink and sys_rmdir

  /** Directory `parent` has an entry for inode `n`. */
  ghost predicate Names(v: Vol, parent: nat, n: nat) {
    && parent in v.nodes && parent in v.dirs && n in v.nodes && n != parent && n < 0x1_0000_0000
    && Directory.FindIno(EntriesIn(v, parent), n) >= 0
  }

  /** Inode `n` is named by one entry of `parent`, and otherwise at most by itself. */
  ghost predicate Sole(v: Vol, parent: nat, n: nat) {
    && Names(v, parent, n)
    && forall m: nat, j: nat :: m in v.nodes && m in v.dirs && j < SLOTS && Live(EntriesIn(v, m)[j]) && EntriesIn(v, m)[j].ino as nat == n ==>
      m == n || (m == parent && j >= 2)
  }

  /** `w` is `v` without inode `n` and its entry in `parent`. */
  ghost predicate Unlinked(v: Vol, w: Vol, parent: nat, n: nat)
    requires Names(v, parent, n)
  {
    var j := Directory.FindIno(EntriesIn(v, parent), n);
    && n !in w.nodes && n !in w.dirs && parent in w.nodes && parent in w.dirs && Unchanged(v, w, n, parent)
    && EntriesIn(w, parent) == EntriesIn(v, parent)[j := DEAD]
    && DirMap(EntriesIn(w, parent)) == DirMap(EntriesIn(v, parent)) - {EntriesIn(v, parent)[j].name}
  }

  lemma UnlinkedBy(v: Vol, u: Vol, w: Vol, parent: nat, n: nat, owner: Owners)
    requires Names(v, parent, n) && Directory.Removed(v, u, parent, Directory.FindIno(EntriesIn(v, parent), n))
    requires NodeGone(u, w, n, owner) && Others(u, w, n)
    ensures Unlinked(v, w, parent, n)
  {
    hide Slots, Contents, DirMap, Directory.FindIno, Released;
    SameNode(u, w, n, parent);
  }

  lemma NamedUnlinked(v: Vol, owner: Owners, w: Vol, parent: nat, n: nat)
    requires Valid(v, owner) && Named(v) && Sole(v, parent, n) && Unlinked(v, w, parent, n)
    ensures Named(w)
  {
    hide Slots, Contents, DirMap, Directory.FindIno, Owned, NameOk, InodesOk, Rooted, Shaped;
    var es, j := EntriesIn(v, parent), Directory.FindIno(EntriesIn(v, parent), n);
    Directory.DirFacts(v, owner, parent);
    forall m: nat, i: nat | m in w.nodes && m in w.dirs && i < SLOTS && Live(EntriesIn(w, m)[i])
      ensures EntriesIn(w, m)[i].ino as nat in w.nodes
    {
      var x := EntriesIn(w, m)[i].ino as nat;
      if m == parent {
        assert i != j && EntriesIn(w, m)[i] == es[i];
        assert x != n;
      } else {
        assert MeaningOf(w, m) == MeaningOf(v, m);
        assert EntriesIn(w, m)[i] == EntriesIn(v, m)[i];
      }
      assert x in v.nodes;
    }
  }

  /** The inodes that stay open as they did. */
  ghost predicate Dropped(v: Vol, w: Vol, parent: nat) {
    && (forall m :: m in v.nodes && m in w.nodes && m != parent ==> (Reopens(w, m) <==> Reopens(v, m)))
    && (TableOk(v) ==> TableOk(w))
    && (TableOk(v) && Persistent(v) ==> Persistent(w))
  }

  lemma DroppedBy(v: Vol, u: Vol, w: Vol, parent: nat, n: nat, owner: Owners, j: nat)
    requires parent in v.nodes && parent != n && Directory.Removed(v, u, parent, j) && Saved(v, u, {parent}) && NodeGone(u, w, n, owner)
    requires parent < 256
    ensures Dropped(v, w, parent)
  {
    hide Slots, Contents, DirMap, Released, Reopens, TableOk, Persistent, Cleared;
    ClearedOk(u, w, n);
    if TableOk(v) && Persistent(v) {
      OthersSameBut(v, u, parent);
      PersistentExactly(v, u, {parent});
    }
  }

  lemma InHandLow(v: Vol, n: nat)
    requires TableOk(v) && InHand(v, n) && n in v.nodes
    ensures n < 256
  {
    hide TableOk, SlotOf;
    if n != 0 { NumberDecides(v, n); }
  }

  datatype Removal = Gone | Stuck | Halted

  /** What the end of sys_unlink and of sys_rmdir comes to. A file is not open
      then and is read from its slot again; a directory is. */
  function RemovalOf(v: Vol, parent: nat, n: nat, open: bool): Removal
    requires parent in v.nodes && n < 0x1_0000_0000
  {
    if Directory.DeleteOutcome(EntriesIn(v, parent), n) == Directory.Hangs then Stuck
    else if !open && !Reopens(v, n) then Halted
    else Gone
  }

  /** It never ends iff the entry is the only live one of an indirect block; else
      it halts iff the inode is not open and does not reopen. */
  ghost predicate RemovalMeans(v: Vol, parent: nat, n: nat, open: bool, r: Removal)
    requires parent in v.nodes && n < 0x1_0000_0000
  {
    && (r == Stuck <==> Directory.LoneIndirect(EntriesIn(v, parent), n))
    && (r == Halted <==> !Directory.LoneIndirect(EntriesIn(v, parent), n) && !open && !Reopens(v, n))
  }

  lemma RemovalIs(v: Vol, owner: Owners, parent: nat, n: nat, open: bool)
    requires Valid(v, owner) && parent in v.nodes && parent in v.dirs && n < 0x1_0000_0000
    ensures RemovalMeans(v, parent, n, open, RemovalOf(v, parent, n, open))
  {
    hide Owned, Shaped, Slots, SlotsOk, Reopens, Directory.DeleteOutcome, Directory.LoneIndirect;
    Directory.DirFacts(v, owner, parent);
    Directory.OutcomeMeans(EntriesIn(v, parent), n);
  }

  /** The entry, then the blocks, the number and the slot of the inode, are given back. */
  method RemoveEntry(p: Partition, parent: nat, n: nat, open: bool) returns (r: Removal)
    requires p.Ok() && Names(p.v, parent, n) && n != 0 && TableOk(p.v) && InHand(p.v, parent)
    modifies p
    ensures r == RemovalOf(old(p.v), parent, n, open)
    ensures RemovalMeans(old(p.v), parent, n, open, r)
    ensures r == Gone ==> p.Ok() && Unlinked(old(p.v), p.v, parent, n) && Dropped(old(p.v), p.v, parent)
    ensures r == Gone && Named(old(p.v)) && Sole(old(p.v), parent, n) ==> Named(p.v)
  {
    hide Owned, Shaped, InodesOk, Rooted, Others, Slots, DirMap, Named, Directory.FindIno, Directory.Alone, Sole, Unlinked, Directory.Removed, NodeGone, Saved, TableOk, SlotOf, Dropped, InHand, Reopens, RemovalMeans;
    ghost var v0, owner0 := p.v, p.owner;
    InHandLow(v0, parent);
    RemovalIs(v0, owner0, parent, n, open);
    var d := Directory.DeleteEntry(p, parent, n);
    if d == Directory.Hangs {
      return Stuck;
    }
    ghost var v1, owner1, j := p.v, p.owner, Directory.FindIno(EntriesIn(v0, parent), n);
    StillThere(v0, v1, parent, n);
    SlotAfter(v0, v1, owner1, parent, n, j);
    var halted := p.InodeRelease(n, open);
    if halted {
      return Halted;
    }
    UnlinkedBy(v0, v1, p.v, parent, n, owner1);
    if Named(v0) && Sole(v0, parent, n) { NamedUnlinked(v0, owner0, p.v, parent, n); }
    DroppedBy(v0, v1, p.v, parent, n, owner1, j);
    return Gone;
  }

  /** Deleting the entry stores the parent, which does not hit the slot of `n`. */
  lemma SlotAfter(v: Vol, u: Vol, owner: Owners, parent: nat, n: nat, j: nat)
    requires TableOk(v) && Valid(u, owner) && n in v.nodes && n in u.nodes && n != parent && parent in v.nodes && parent < 256
    requires Directory.Removed(v, u, parent, j) && Saved(v, u, {parent})
    ensures TableOk(u) && n < MAX_FILES && |u.itable| == InodeTable.TABLE_SECTS
    ensures SlotOf(u, n).no == n <==> Reopens(v, n)
  {
    hide Slots, Contents, DirMap, SlotOf, Owned, Shaped, Rooted, TableOk, Reopens;
    InTable(u, owner, n);
    NumberDecides(u, n);
  }

  /** sys_unlink once the path is searched: a file in the table of open files is refused. */
  method Unlink(p: Partition, parent: nat, n: nat, fileTable: seq<int>) returns (refused: bool, r: Removal)
    requires p.Ok() && Named(p.v) && Sole(p.v, parent, n) && n != 0 && TableOk(p.v) && InHand(p.v, parent)
    modifies p
    ensures refused <==> n in fileTable
    ensures refused ==> p.v == old(p.v) && p.owner == old(p.owner)
    ensures !refused ==> r == RemovalOf(old(p.v), parent, n, false) && RemovalMeans(old(p.v), parent, n, false, r)
    ensures !refused && r == Gone ==> p.Ok() && Named(p.v) && Unlinked(old(p.v), p.v, parent, n) && Dropped(old(p.v), p.v, parent)
  {
    hide Valid, Named, TableOk, Unlinked, Dropped, RemovalOf, InHand, Slots, Directory.FindIno, RemovalMeans;
    var i := 0;
    while i < |fileTable| && fileTable[i] != n
      invariant i <= |fileTable| && n !in fileTable[..i]
    {
      i := i + 1;
    }
    if i < |fileTable| {
      return true, Stuck;
    }
    assert fileTable[..i] == fileTable;
    refused := false;
    r := RemoveEntry(p, parent, n, false);
  }

  lemma StillThere(v: Vol, u: Vol, parent: nat, n: nat)
    requires Names(v, parent, n) && Directory.Removed(v, u, parent, Directory.FindIno(EntriesIn(v, parent), n))
    ensures n in u.nodes
  {
    hide Slots, Contents, DirMap, Directory.FindIno;
  }

  // ---- sys_rmdir

  datatype RmdirResult = Refused | Asserted | Misdirected(ino: nat, r: Removal) | Removed(r: Removal)

  predicate OneBlock(sectors: seq<Word>)
    requires |sectors| == 13
  {
    forall k :: 1 <= k < 13 ==> sectors[k] == 0
  }

  /** What sys_rmdir comes to. The directory is read from its slot unless it is
      open. One that is open or reopens is removed iff it is empty. Otherwise the
      slot decides, and what is removed is the inode whose number is in it. */
  function RmdirOf(v: Vol, parent: nat, n: nat, open: bool): RmdirResult
    requires parent in v.nodes && n in v.nodes && n < MAX_FILES && |v.itable| == InodeTable.TABLE_SECTS
  {
    if open || Reopens(v, n) then
      if DirMap(EntriesIn(v, n)).Keys == {DOT, DOTDOT} then Removed(RemovalOf(v, parent, n, true)) else Refused
    else if SlotOf(v, n).size != 2 * ENTRY then Refused
    else if !OneBlock(SlotOf(v, n).sectors) then Asserted
    else Misdirected(SlotOf(v, n).no, RemovalOf(v, parent, SlotOf(v, n).no, true))
  }

  /** A file of 48 bytes passes for an empty directory. */
  ghost predicate LooksEmpty(v: Vol, k: nat)
    requires k in v.nodes
  {
    if k in v.dirs then DirMap(EntriesIn(v, k)).Keys == {DOT, DOTDOT} else |Contents(v.disk, v.nodes[k])| == 2 * ENTRY
  }

  /** For a directory that does not reopen: with a number from 256 on it cannot be
      removed; with one below, whether another inode is removed in its place is
      decided by whether that one looks empty. */
  lemma RmdirLost(v: Vol, owner: Owners, parent: nat, n: nat)
    requires Valid(v, owner) && TableOk(v) && parent in v.nodes && n in v.nodes && !InHand(v, n)
    ensures n < MAX_FILES
    ensures n >= 256 ==> RmdirOf(v, parent, n, false) == Refused
    ensures n < 256 && SlotOf(v, n).no as nat in v.nodes ==>
      RmdirOf(v, parent, n, false) ==
        if LooksEmpty(v, SlotOf(v, n).no) then Misdirected(SlotOf(v, n).no, RemovalOf(v, parent, SlotOf(v, n).no, true)) else Refused
  {
    hide Owned, Shaped, InodesOk, Rooted, SlotOf, TableOk, Slots, DirMap, RemovalOf, LooksEmpty;
    InTable(v, owner, n);
    NotReopened(v, owner, n);
    var k := SlotOf(v, n).no as nat;
    if n < 256 && k in v.nodes { SizeTest(v, owner, k); }
  }

  /** The size alone tells an empty directory, which has one block; so has a file of that size. */
  lemma SizeTest(v: Vol, owner: Owners, k: nat)
    requires Valid(v, owner) && k in v.nodes
    ensures v.nodes[k].size < U32 && (v.nodes[k].size == 2 * ENTRY <==> LooksEmpty(v, k))
    ensures v.nodes[k].size == 2 * ENTRY ==> OneBlock(v.nodes[k].sectors)
  {
    hide Owned, Shaped, InodesOk, Rooted, Slots, DirMap, SlotsOk, LiveIn, HasBlocks;
    ShapeHere(v, k);
    var node := v.nodes[k];
    if k in v.dirs {
      EmptyExactly(EntriesIn(v, k));
      LiveBound(EntriesIn(v, k), SLOTS);
      if node.size == 2 * ENTRY { Directory.EmptyBlocks(v.disk, node); }
    } else {
      SmallFile(v.disk, node);
    }
  }

  lemma ShapeHere(v: Vol, n: nat)
    requires Shaped(v) && n in v.nodes
    ensures ShapeOf(v.disk, v.nodes[n], n in v.dirs)
  {
    hide ShapeOf;
  }

  lemma {:induction false} LiveBound(es: seq<Entry>, m: nat)
    requires m <= |es|
    ensures LiveIn(es, m) <= m
  {
    if m > 0 { LiveBound(es, m - 1); }
  }

  lemma SmallFile(disk: seq<Sector>, node: Node)
    requires FileShape(disk, node)
    ensures node.size == 2 * ENTRY ==> OneBlock(node.sectors)
  {
    if node.size == 2 * ENTRY {
      forall k | 1 <= k < DIRECT ensures node.sectors[k] == 0 {
        assert Blk(disk, node, k) == node.sectors[k];
      }
    }
  }

  /** The copy that dir_open hands to dir_is_empty and dir_remove. */
  function Opened(v: Vol, n: nat, open: bool): InodeTable.INode
    requires n in v.nodes && n < MAX_FILES && |v.itable| == InodeTable.TABLE_SECTS
  {
    if open then DiskInode(n, v.nodes[n]) else SlotOf(v, n)
  }

  lemma OpenedMeans(v: Vol, owner: Owners, parent: nat, n: nat, open: bool)
    requires Valid(v, owner) && TableOk(v) && InHand(v, parent) && parent in v.nodes
    requires n in v.nodes && n in v.dirs && n != 0 && n < MAX_FILES
    ensures var i := Opened(v, n, open);
      && (open || Reopens(v, n) <==> i.no == n)
      && RmdirOf(v, parent, n, open) ==
        (if i.size != 2 * ENTRY then Refused
         else if !OneBlock(i.sectors) then Asserted
         else if i.no == n then Removed(RemovalOf(v, parent, n, true))
         else Misdirected(i.no, RemovalOf(v, parent, i.no, true)))
      && (i.no != n && i.size == 2 * ENTRY ==> i.no != parent && i.no != 0)
  {
    hide Owned, Shaped, InodesOk, Rooted, SlotOf, TableOk, Slots, DirMap, RemovalOf;
    NumberDecides(v, n);
    SizeTest(v, owner, n);
    InHandLow(v, parent);
    if !open && !Reopens(v, n) { NotReopened(v, owner, n); }
  }

  /** One that is open or reopens is refused iff it is not empty. Another one is
      refused from 256 on; below, the inode in its slot goes instead, iff it looks empty. */
  ghost predicate RmdirMeans(v: Vol, parent: nat, n: nat, open: bool, r: RmdirResult)
    requires parent in v.nodes && n in v.nodes && n < MAX_FILES && |v.itable| == InodeTable.TABLE_SECTS && n < 0x1_0000_0000
  {
    if open || Reopens(v, n) then
      if DirMap(EntriesIn(v, n)).Keys == {DOT, DOTDOT} then r.Removed? && RemovalMeans(v, parent, n, true, r.r) else r == Refused
    else
      && !r.Removed? && (n >= 256 ==> r == Refused)
      && (r.Misdirected? ==> r.ino == SlotOf(v, n).no)
      && (n < 256 && SlotOf(v, n).no as nat in v.nodes ==> if LooksEmpty(v, SlotOf(v, n).no) then r.Misdirected? else r == Refused)
  }

  lemma RmdirIs(v: Vol, owner: Owners, parent: nat, n: nat, open: bool)
    requires Valid(v, owner) && TableOk(v) && parent in v.nodes && parent in v.dirs && n in v.nodes && n != 0
    ensures n < MAX_FILES && |v.itable| == InodeTable.TABLE_SECTS && RmdirMeans(v, parent, n, open, RmdirOf(v, parent, n, open))
  {
    hide Owned, Shaped, InodesOk, Rooted, SlotOf, TableOk, Slots, DirMap, RemovalOf, LooksEmpty, RemovalMeans;
    InTable(v, owner, n);
    RemovalIs(v, owner, parent, n, true);
    if !open && !Reopens(v, n) { RmdirLost(v, owner, parent, n); }
  }

  /** What Misdirected leaves behind, if the inode removed by mistake is in use. */
  ghost predicate WrongOne(v: Vol, owner: Owners, w: Vol, parent: nat, k: nat) {
    if Names(v, parent, k) then Unlinked(v, w, parent, k) && Dropped(v, w, parent) && (Named(v) && Sole(v, parent, k) ==> Named(w))
    else NodeGone(v, w, k, owner) && Others(v, w, k)
  }

  /** sys_rmdir and dir_remove. */
  method RemoveDir(p: Partition, parent: nat, n: nat, open: bool) returns (r: RmdirResult)
    requires p.Ok() && Named(p.v) && Names(p.v, parent, n) && n != 0 && n in p.v.dirs && TableOk(p.v) && InHand(p.v, parent)
    modifies p
    ensures n < MAX_FILES && |old(p.v).itable| == InodeTable.TABLE_SECTS && r == RmdirOf(old(p.v), parent, n, open)
    ensures RmdirMeans(old(p.v), parent, n, open, r)
    ensures r.Refused? || r.Asserted? ==> p.v == old(p.v) && p.owner == old(p.owner)
    ensures r == Removed(Gone) ==> p.Ok() && Unlinked(old(p.v), p.v, parent, n) && Dropped(old(p.v), p.v, parent)
    ensures r == Removed(Gone) && Sole(old(p.v), parent, n) ==> Named(p.v)
    ensures r.Misdirected? && r.r == Gone && r.ino in old(p.v).nodes ==> p.Ok() && WrongOne(old(p.v), old(p.owner), p.v, parent, r.ino)
    ensures r.Misdirected? && r.ino !in old(p.v).nodes ==> r.r == Gone && Stale(old(p.v), p.v, SlotOf(old(p.v), n).sectors[0])
  {
    hide Owned, Shaped, InodesOk, Rooted, Others, Slots, DirMap, Named, Unlinked, DirShape, TableOk, Dropped, RemovalOf, InHand, SlotOf, RmdirOf, NodeGone, Reopens, Directory.FindIno, RmdirMeans;
    ghost var v0, owner0 := p.v, p.owner;
    InTable(v0, owner0, n);
    var i := Opened(p.v, n, open);
    OpenedMeans(v0, owner0, parent, n, open);
    RmdirIs(v0, owner0, parent, n, open);
    if i.size != 2 * ENTRY {
      return Refused;
    }
    var k := 1;
    while k < 13
      invariant 1 <= k <= 13 && forall j :: 1 <= j < k ==> i.sectors[j] == 0
    {
      if i.sectors[k] != 0 {
        return Asserted;
      }
      k := k + 1;
    }
    if i.no == n {
      var done := RemoveEntry(p, parent, n, true);
      return Removed(done);
    }
    var ino := i.no;
    if ino as nat !in p.v.nodes {
      var done := RemoveStale(p, parent, ino, i.sectors[0]);
      return Misdirected(ino, done);
    }
    var done := RemoveForeign(p, parent, ino);
    return Misdirected(ino, done);
  }

  /** What Misdirected leaves behind if the inode in the slot is no longer in
      use: the block it had is marked free, which harms nothing iff it is free. */
  ghost predicate Stale(v: Vol, w: Vol, a: Word) {
    && (a == 0 ==> w == v)
    && (v.base < a < v.base + |v.used| ==>
      w == v.(used := v.used[a - v.base := false]) && (Sound(w) <==> !v.used[a - v.base]))
  }

  /** dir_remove with the number of an inode that is gone and the block it had. */
  method RemoveStale(p: Partition, parent: nat, k: Word, a: Word) returns (r: Removal)
    requires p.Ok() && Named(p.v) && parent in p.v.nodes && parent in p.v.dirs && k as nat !in p.v.nodes
    modifies p
    ensures r == Gone == RemovalOf(old(p.v), parent, k, true)
    ensures Stale(old(p.v), p.v, a)
  {
    hide Valid, Slots, Named, Directory.FindIno, Sound;
    ghost var v0, owner0 := p.v, p.owner;
    NotNamed(v0, parent, k);
    var d := Directory.DeleteEntry(p, parent, k);
    if a != 0 && p.v.base < a < p.v.base + |p.v.used| {
      Directory.ValidOwned(v0, owner0);
      if p.v.used[a - p.v.base] {
        NotSoundFreed(v0, owner0, v0.(used := v0.used[a - v0.base := false]), a);
      } else {
        assert p.v.used[a - p.v.base := false] == p.v.used;
        SoundNow(v0, owner0);
      }
      p.FreeBlock(a);
    }
    r := Gone;
  }

  lemma NotNamed(v: Vol, parent: nat, k: Word)
    requires Named(v) && parent in v.nodes && parent in v.dirs && k as nat !in v.nodes
    ensures Directory.FindIno(EntriesIn(v, parent), k) == -1
  {
    hide Slots;
  }

  /** A block in use, or past the last one, marked free. */
  lemma NotSoundFreed(v: Vol, owner: Owners, w: Vol, a: nat)
    requires Owned(v, owner) && v.base <= a < v.base + |v.used| && v.used[a - v.base]
    requires w == v.(used := v.used[a - v.base := false])
    ensures !Sound(w)
  {
    hide Ref, Shaped, InodesOk, Rooted, Linked, Backed;
    OwnedExactly(v, owner, a);
    assert !w.used[a - v.base];
    forall o: Owners ensures !Valid(w, o) {
      if Owned(w, o) {
        assert a - v.base < v.cnt;
        var n: nat, r: nat :| Refers(v, n, r, a);
        assert Refers(w, n, r, a);
        OwnedExactly(w, o, a);
      }
    }
  }

  /** Releasing an inode without deleting its entry leaves the entry naming nothing. */
  lemma DanglingName(v: Vol, owner: Owners, w: Vol, k: nat, d: nat, j: nat)
    requires NodeGone(v, w, k, owner) && Others(v, w, k) && d in v.nodes && d in v.dirs && d != k
    requires j < SLOTS && Live(EntriesIn(v, d)[j]) && EntriesIn(v, d)[j].ino as nat == k
    ensures !Named(w)
  {
    hide Slots, Contents, Released, Cleared;
    SameNode(v, w, k, d);
    assert EntriesIn(w, d)[j] == EntriesIn(v, d)[j];
  }

  /** dir_remove with the number found in the slot; its copy is the open one. */
  method RemoveForeign(p: Partition, parent: nat, k: Word) returns (r: Removal)
    requires p.Ok() && TableOk(p.v) && InHand(p.v, parent) && parent in p.v.nodes && parent in p.v.dirs
    requires k as nat in p.v.nodes && k != 0 && k != parent
    modifies p
    ensures r == RemovalOf(old(p.v), parent, k, true)
    ensures r == Gone ==> p.Ok() && WrongOne(old(p.v), old(p.owner), p.v, parent, k)
  {
    hide Owned, Shaped, InodesOk, Rooted, Others, Slots, DirMap, Named, Unlinked, TableOk, Dropped, InHand, SlotOf, NodeGone, Reopens, Directory.FindIno, Directory.Alone, Sole;
    if Directory.FindIno(EntriesIn(p.v, parent), k) >= 0 {
      r := RemoveEntry(p, parent, k, true);
    } else {
      var halted := p.InodeRelease(k, true);
      r := Gone;
    }
  }
}
