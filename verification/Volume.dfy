/** fs/inode.c, fs/file.c and fs/dir.c share this view of a mounted partition:
    inodes that reach data blocks through twelve direct addresses and one table
    of indirect addresses, and a bitmap of the blocks in use. */
module Volume {
  import opened Sectors
  import opened Bitmaps
  import opened DirSlots
  import InodeTable

  const DIRECT: nat := 12
  const BLOCKS: nat := 140          // 12 direct + 128 indirect
  const REFS: nat := 141            // the blocks and the table itself
  const MAX_SIZE: nat := 71680      // 140 blocks of 512 bytes
  const MAX_FILES: nat := 4096

  datatype Inode = Inode(size: nat, sectors: seq<Word>)
  type Node = i: Inode | |i.sectors| == 13 witness Inode(0, seq(13, i => 0))

  /** What inode_init makes. */
  function NewNode(): Node { Inode(0, seq(13, i => 0)) }

  /** `base` is data_start_lba and `cnt` the number of data blocks; the block
      bitmap `used` may be longer, its tail marked used by the formatter. `dirs`
      are the inodes whose directory entry types them as directories. `nodes` are
      the inodes as they are in memory while open; `itable` is the inode table on
      disk, from which they are read when opened. Its sectors lie below `base`,
      where no block address leads, and are kept apart from the rest of `disk`. */
  datatype Vol = Vol(base: nat, cnt: nat, used: seq<bool>, disk: seq<Sector>,
                     inodes: seq<bool>, nodes: map<nat, Node>, dirs: set<nat>, itable: seq<Sector>)

  /** The address at reference `r` of an inode: r < 12 direct blocks, 12 the
      table, and from 13 on the words of the table; 0 stands for none. */
  function Ref(disk: seq<Sector>, node: Node, r: nat): Word
    requires r < REFS
  {
    if r <= DIRECT then node.sectors[r]
    else if node.sectors[DIRECT] == 0 || |disk| <= node.sectors[DIRECT] then 0
    else WordAt(disk[node.sectors[DIRECT]], 4 * (r - 13))
  }

  function Place(k: nat): nat { if k < DIRECT then k else k + 1 }

  /** The address of data block `k`: all_blocks[k]. */
  function Blk(disk: seq<Sector>, node: Node, k: nat): Word
    requires k < BLOCKS
  {
    Ref(disk, node, Place(k))
  }

  // ---- who owns which block

  datatype Role = Role(ino: nat, at: nat)
  type Owners = map<nat, Role>

  predicate Linked(disk: seq<Sector>, nodes: map<nat, Node>, owner: Owners) {
    forall n: nat, r: nat :: n in nodes && r < REFS && Ref(disk, nodes[n], r) != 0 ==>
      Ref(disk, nodes[n], r) in owner && owner[Ref(disk, nodes[n], r)] == Role(n, r)
  }

  predicate Backed(disk: seq<Sector>, nodes: map<nat, Node>, owner: Owners) {
    forall a :: a in owner ==>
      && owner[a].ino in nodes && owner[a].at < REFS
      && Ref(disk, nodes[owner[a].ino], owner[a].at) == a
  }

  predicate Marked(base: nat, cnt: nat, used: seq<bool>, owner: Owners) {
    && cnt <= |used|
    && (forall a :: a in owner ==> base <= a < base + cnt)
    && forall b :: 0 <= b < cnt ==> (used[b] <==> base + b in owner)
  }

  predicate Owned(v: Vol, owner: Owners) {
    && 0 < v.base && v.base + v.cnt <= |v.disk| && |v.disk| < 0x1_0000_0000
    && Marked(v.base, v.cnt, v.used, owner)
    && (forall b :: v.cnt <= b < |v.used| ==> v.used[b])
    && Linked(v.disk, v.nodes, owner)
    && Backed(v.disk, v.nodes, owner)
  }

  /** Inode `n` refers to address `a`, at reference `r`. */
  predicate Refers(v: Vol, n: nat, r: nat, a: nat) {
    n in v.nodes && r < REFS && a != 0 && Ref(v.disk, v.nodes[n], r) == a
  }

  /** Owned says what it is for: the bit of a block is set iff exactly one
      reference, of exactly one inode, leads to it, and no inode refers to
      anything outside the data area. */
  lemma OwnedExactly(v: Vol, owner: Owners, a: nat)
    requires Owned(v, owner)
    ensures v.base <= a < v.base + v.cnt && v.used[a - v.base] <==> exists n: nat, r: nat :: Refers(v, n, r, a)
    ensures forall n: nat, r: nat, m: nat, q: nat :: Refers(v, n, r, a) && Refers(v, m, q, a) ==> n == m && r == q
  {
    hide Ref;
    if v.base <= a < v.base + v.cnt && v.used[a - v.base] {
      assert v.base + (a - v.base) in owner;
      assert Refers(v, owner[a].ino, owner[a].at, a);
    }
    if n: nat, r: nat :| Refers(v, n, r, a) {
      assert Ref(v.disk, v.nodes[n], r) in owner;
      assert v.base + (a - v.base) in owner;
    }
  }

  // ---- frames

  /** `disk2` differs from `disk` at no address that inode `n` owns. */
  predicate SameFor(disk: seq<Sector>, disk2: seq<Sector>, owner: Owners, n: nat) {
    && |disk2| == |disk|
    && forall a :: a in owner && owner[a].ino == n && a < |disk| ==> disk2[a] == disk[a]
  }

  lemma RefFrame(v: Vol, owner: Owners, disk2: seq<Sector>, n: nat, r: nat)
    requires Owned(v, owner) && n in v.nodes && SameFor(v.disk, disk2, owner, n) && r < REFS
    ensures Ref(disk2, v.nodes[n], r) == Ref(v.disk, v.nodes[n], r)
  {
    hide WordAt;
    assert Ref(v.disk, v.nodes[n], DIRECT) == v.nodes[n].sectors[DIRECT];
  }

  // ---- taking blocks

  /** `got` maps each newly taken address to the reference it is meant for. */
  predicate Taken(v: Vol, used2: seq<bool>, got: map<nat, nat>) {
    && |used2| == |v.used|
    && (forall a :: a in got ==> v.base <= a < v.base + v.cnt <= v.base + |v.used|)
    && forall b :: 0 <= b < |v.used| ==>
      (used2[b] <==> v.used[b] || v.base + b in got) && !(v.used[b] && v.base + b in got)
  }

  /** Inode `n` gained exactly the references in `got`. */
  predicate Gained(disk: seq<Sector>, node: Node, disk2: seq<Sector>, node2: Node, got: map<nat, nat>) {
    && (forall r: nat :: r < REFS ==>
      || Ref(disk2, node2, r) == Ref(disk, node, r)
      || (Ref(disk, node, r) == 0 && Ref(disk2, node2, r) in got && got[Ref(disk2, node2, r)] == r))
    && forall a :: a in got ==> got[a] < REFS && Ref(disk2, node2, got[a]) == a
  }

  function Roles(n: nat, got: map<nat, nat>): Owners { map a | a in got :: Role(n, got[a]) }

  /** `disk2` differs from the disk of `v` at no address that another inode owns. */
  predicate OthersSame(v: Vol, owner: Owners, disk2: seq<Sector>, n: nat) {
    && |disk2| == |v.disk|
    && forall a :: a in owner && owner[a].ino != n && a < |disk2| ==> disk2[a] == v.disk[a]
  }

  lemma AttachInv(v: Vol, owner: Owners, n: nat, used2: seq<bool>, disk2: seq<Sector>, node2: Node, got: map<nat, nat>)
    requires Owned(v, owner) && n in v.nodes
    requires OthersSame(v, owner, disk2, n)
    requires Taken(v, used2, got) && Gained(v.disk, v.nodes[n], disk2, node2, got)
    ensures Owned(v.(used := used2, disk := disk2, nodes := v.nodes[n := node2]), owner + Roles(n, got))
  {
    hide Ref, Linked, Backed, Gained, Marked, Roles, Taken;
    AttachLinked(v, owner, n, used2, disk2, node2, got);
    AttachBacked(v, owner, n, used2, disk2, node2, got);
    AttachMarked(v, owner, n, used2, got);
  }

  lemma AttachMarked(v: Vol, owner: Owners, n: nat, used2: seq<bool>, got: map<nat, nat>)
    requires Owned(v, owner) && Taken(v, used2, got)
    ensures Marked(v.base, v.cnt, used2, owner + Roles(n, got))
    ensures forall b :: v.cnt <= b < |used2| ==> used2[b]
  {
    hide Ref, Linked, Backed;
  }

  lemma GotFresh(v: Vol, owner: Owners, used2: seq<bool>, got: map<nat, nat>)
    requires Owned(v, owner) && Taken(v, used2, got)
    ensures got.Keys !! owner.Keys
  {
    hide Linked, Backed;
    forall a | a in got ensures a !in owner {
      var b := a - v.base;
      assert !(v.used[b] && v.base + b in got);
    }
  }

  lemma AttachLinked(v: Vol, owner: Owners, n: nat, used2: seq<bool>, disk2: seq<Sector>, node2: Node, got: map<nat, nat>)
    requires Owned(v, owner) && n in v.nodes
    requires OthersSame(v, owner, disk2, n)
    requires Taken(v, used2, got) && Gained(v.disk, v.nodes[n], disk2, node2, got)
    ensures Linked(disk2, v.nodes[n := node2], owner + Roles(n, got))
  {
    hide Ref;
    GotFresh(v, owner, used2, got);
    var nodes2 := v.nodes[n := node2];
    var owner2 := owner + Roles(n, got);
    forall m: nat, r: nat | m in nodes2 && r < REFS && Ref(disk2, nodes2[m], r) != 0
      ensures Ref(disk2, nodes2[m], r) in owner2 && owner2[Ref(disk2, nodes2[m], r)] == Role(m, r)
    {
      if m != n {
        RefFrame(v, owner, disk2, m, r);
        assert Ref(v.disk, v.nodes[m], r) in owner;
      } else if Ref(disk2, node2, r) == Ref(v.disk, v.nodes[n], r) {
        assert Ref(v.disk, v.nodes[n], r) in owner;
      }
    }
  }

  lemma AttachBacked(v: Vol, owner: Owners, n: nat, used2: seq<bool>, disk2: seq<Sector>, node2: Node, got: map<nat, nat>)
    requires Owned(v, owner) && n in v.nodes
    requires OthersSame(v, owner, disk2, n)
    requires Taken(v, used2, got) && Gained(v.disk, v.nodes[n], disk2, node2, got)
    ensures Backed(disk2, v.nodes[n := node2], owner + Roles(n, got))
  {
    hide Ref;
    var nodes2 := v.nodes[n := node2];
    var owner2 := owner + Roles(n, got);
    forall a | a in owner2
      ensures owner2[a].ino in nodes2 && owner2[a].at < REFS && Ref(disk2, nodes2[owner2[a].ino], owner2[a].at) == a
    {
      if a !in got {
        var m, r := owner[a].ino, owner[a].at;
        if m != n {
          RefFrame(v, owner, disk2, m, r);
        }
      }
    }
  }

  /** Rewriting inode `n` and blocks it owns, without changing a reference. */
  lemma RewriteInv(v: Vol, owner: Owners, n: nat, disk2: seq<Sector>, node2: Node)
    requires Owned(v, owner) && n in v.nodes
    requires OthersSame(v, owner, disk2, n)
    requires forall r: nat :: r < REFS ==> Ref(disk2, node2, r) == Ref(v.disk, v.nodes[n], r)
    ensures Owned(v.(disk := disk2, nodes := v.nodes[n := node2]), owner)
  {
    hide Ref, Linked, Backed, Marked, OthersSame;
    assert Marked(v.base, v.cnt, v.used, owner);
    AttachInv(v, owner, n, v.used, disk2, node2, map[]);
    assert owner + Roles(n, map[]) == owner;
    assert v.(used := v.used, disk := disk2, nodes := v.nodes[n := node2]) == v.(disk := disk2, nodes := v.nodes[n := node2]);
  }

  /** A write to a data block of `n` leaves every reference of `n` and every block of the others alone. */
  lemma DataWriteRefs(v: Vol, owner: Owners, n: nat, k: nat, s: Sector)
    requires Owned(v, owner) && n in v.nodes && k < BLOCKS && Blk(v.disk, v.nodes[n], k) != 0
    ensures Blk(v.disk, v.nodes[n], k) < |v.disk|
    ensures OthersSame(v, owner, v.disk[Blk(v.disk, v.nodes[n], k) := s], n)
    ensures forall r: nat :: r < REFS ==>
      Ref(v.disk[Blk(v.disk, v.nodes[n], k) := s], v.nodes[n], r) == Ref(v.disk, v.nodes[n], r)
  {
    hide WordAt;
    var a := Blk(v.disk, v.nodes[n], k);
    assert Ref(v.disk, v.nodes[n], Place(k)) in owner;
    assert Ref(v.disk, v.nodes[n], DIRECT) == v.nodes[n].sectors[DIRECT] != a;
  }

  // ---- giving blocks back

  function Without(owner: Owners, gone: set<nat>): Owners { map a | a in owner && a !in gone :: owner[a] }

  predicate Released(v: Vol, used2: seq<bool>, gone: set<nat>) {
    && |used2| == |v.used|
    && forall b :: 0 <= b < |v.used| ==> (used2[b] <==> v.used[b] && v.base + b !in gone)
  }

  /** Inode `n` lost exactly the references in `gone`, all of which were its own. */
  predicate Lost(disk: seq<Sector>, node: Node, disk2: seq<Sector>, node2: Node, gone: set<nat>) {
    forall r: nat :: r < REFS ==>
      Ref(disk2, node2, r) == if Ref(disk, node, r) in gone then 0 else Ref(disk, node, r)
  }

  ghost predicate AllOf(v: Vol, owner: Owners, n: nat, gone: set<nat>) {
    forall a :: a in gone ==> a in owner && owner[a].ino == n
  }

  lemma ReleaseMarked(v: Vol, owner: Owners, n: nat, used2: seq<bool>, gone: set<nat>)
    requires Owned(v, owner) && Released(v, used2, gone) && AllOf(v, owner, n, gone)
    ensures Marked(v.base, v.cnt, used2, Without(owner, gone))
    ensures forall b :: v.cnt <= b < |used2| ==> used2[b]
  {
    hide Ref, Linked, Backed;
  }

  lemma DetachInv(v: Vol, owner: Owners, n: nat, used2: seq<bool>, disk2: seq<Sector>, node2: Node, gone: set<nat>)
    requires Owned(v, owner) && n in v.nodes
    requires OthersSame(v, owner, disk2, n)
    requires Released(v, used2, gone) && AllOf(v, owner, n, gone)
    requires Lost(v.disk, v.nodes[n], disk2, node2, gone)
    ensures Owned(v.(used := used2, disk := disk2, nodes := v.nodes[n := node2]), Without(owner, gone))
  {
    hide Ref, Linked, Backed, Lost, Marked, Without, Released, AllOf;
    DetachRefs(v, owner, n, disk2, node2, gone);
    ReleaseMarked(v, owner, n, used2, gone);
  }

  lemma DetachRefs(v: Vol, owner: Owners, n: nat, disk2: seq<Sector>, node2: Node, gone: set<nat>)
    requires Owned(v, owner) && n in v.nodes
    requires OthersSame(v, owner, disk2, n) && AllOf(v, owner, n, gone)
    requires Lost(v.disk, v.nodes[n], disk2, node2, gone)
    ensures Linked(disk2, v.nodes[n := node2], Without(owner, gone))
    ensures Backed(disk2, v.nodes[n := node2], Without(owner, gone))
  {
    hide Ref;
    var nodes2 := v.nodes[n := node2];
    var owner2 := Without(owner, gone);
    forall m: nat, r: nat | m in nodes2 && r < REFS && Ref(disk2, nodes2[m], r) != 0
      ensures Ref(disk2, nodes2[m], r) in owner2 && owner2[Ref(disk2, nodes2[m], r)] == Role(m, r)
    {
      if m != n {
        RefFrame(v, owner, disk2, m, r);
      }
      assert Ref(v.disk, v.nodes[m], r) in owner;
    }
    forall a | a in owner2
      ensures owner2[a].ino in nodes2 && owner2[a].at < REFS && Ref(disk2, nodes2[owner2[a].ino], owner2[a].at) == a
    {
      var m, r := owner[a].ino, owner[a].at;
      if m != n {
        RefFrame(v, owner, disk2, m, r);
      }
    }
  }

  /** Everything inode `n` owns, given back with the inode. */
  function OwnedBy(owner: Owners, n: nat): set<nat> { set a | a in owner && owner[a].ino == n }

  lemma RemoveInv(v: Vol, owner: Owners, n: nat, used2: seq<bool>)
    requires Owned(v, owner) && n in v.nodes && Released(v, used2, OwnedBy(owner, n))
    ensures Owned(v.(used := used2, nodes := v.nodes - {n}), Without(owner, OwnedBy(owner, n)))
  {
    hide Ref;
    ReleaseMarked(v, owner, n, used2, OwnedBy(owner, n));
    var nodes2, owner2 := v.nodes - {n}, Without(owner, OwnedBy(owner, n));
    assert Linked(v.disk, nodes2, owner2);
    assert Backed(v.disk, nodes2, owner2);
  }

  /** A new inode refers to nothing. */
  lemma AddInv(v: Vol, owner: Owners, n: nat)
    requires Owned(v, owner) && n !in v.nodes
    ensures Owned(v.(nodes := v.nodes[n := NewNode()]), owner)
  {
    var nodes2 := v.nodes[n := NewNode()];
    assert forall r: nat :: r < REFS ==> Ref(v.disk, NewNode(), r) == 0;
    hide Ref;
    assert Linked(v.disk, nodes2, owner);
    assert Backed(v.disk, nodes2, owner);
  }

  // ---- what an inode means

  /** The first `m` data blocks are there and no others, and the table iff they reach past the direct ones. */
  predicate HasBlocks(disk: seq<Sector>, node: Node, m: nat) {
    && (forall k: nat :: k < BLOCKS ==> (Blk(disk, node, k) != 0 <==> k < m))
    && (node.sectors[DIRECT] != 0 <==> DIRECT < m)
  }

  /** Nothing until the first write, then one block more than size / 512. */
  function Held(node: Node): nat { if node.sectors[0] == 0 then 0 else node.size / SECTOR + 1 }

  predicate FileShape(disk: seq<Sector>, node: Node) {
    && node.size < MAX_SIZE && (node.sectors[0] == 0 ==> node.size == 0)
    && HasBlocks(disk, node, Held(node))
  }

  function ByteAt(disk: seq<Sector>, node: Node, i: nat): Byte {
    if i / SECTOR < BLOCKS && Blk(disk, node, i / SECTOR) < |disk| then disk[Blk(disk, node, i / SECTOR)][i % SECTOR] else 0
  }

  /** The bytes of a file. */
  function Contents(disk: seq<Sector>, node: Node): (s: seq<Byte>)
    ensures |s| == node.size && forall i :: 0 <= i < |s| ==> s[i] == ByteAt(disk, node, i)
  {
    seq(node.size, i requires 0 <= i < node.size => ByteAt(disk, node, i))
  }

  function SlotAt(disk: seq<Sector>, node: Node, j: nat): Entry
    requires j < SLOTS
  {
    var a := Blk(disk, node, j / PER_SECTOR);
    if a == 0 || |disk| <= a then DEAD else EntryAt(disk[a], ENTRY * (j % PER_SECTOR))
  }

  /** The entry slots of a directory; the slots of an absent block are dead. */
  function Slots(disk: seq<Sector>, node: Node): (es: seq<Entry>)
    ensures |es| == SLOTS && forall j :: 0 <= j < SLOTS ==> es[j] == SlotAt(disk, node, j)
  {
    seq(SLOTS, j requires 0 <= j < SLOTS => SlotAt(disk, node, j))
  }

  predicate BlockLive(es: seq<Entry>, k: nat)
    requires |es| == SLOTS && k < BLOCKS
  {
    exists j :: PER_SECTOR * k <= j < PER_SECTOR * (k + 1) && Live(es[j])
  }

  predicate DirBlocks(disk: seq<Sector>, node: Node) {
    && Blk(disk, node, 0) != 0
    && (node.sectors[DIRECT] != 0 <==> Blk(disk, node, DIRECT) != 0)
    && forall k: nat :: 1 <= k < BLOCKS && Blk(disk, node, k) != 0 ==> BlockLive(Slots(disk, node), k)
  }

  /** Every block but the first holds a live entry, and the size counts the live entries. */
  predicate DirShape(disk: seq<Sector>, node: Node) {
    && SlotsOk(Slots(disk, node))
    && DirBlocks(disk, node)
    && node.size == ENTRY * LiveIn(Slots(disk, node), SLOTS)
  }

  predicate ShapeOf(disk: seq<Sector>, node: Node, isDir: bool) {
    if isDir then DirShape(disk, node) else FileShape(disk, node)
  }

  predicate Shaped(v: Vol) {
    forall n :: n in v.nodes ==> ShapeOf(v.disk, v.nodes[n], n in v.dirs)
  }

  /** The root directory is inode 0 and starts in the first data block. */
  predicate Rooted(v: Vol) {
    0 in v.nodes && 0 in v.dirs && v.nodes[0].sectors[0] == v.base && v.dirs <= v.nodes.Keys
  }

  predicate InodesOk(v: Vol) {
    && |v.inodes| == MAX_FILES && |v.itable| == InodeTable.TABLE_SECTS
    && (forall n :: n in v.nodes ==> n < MAX_FILES)
    && forall n :: 0 <= n < MAX_FILES ==> (v.inodes[n] <==> n in v.nodes)
  }

  predicate Valid(v: Vol, owner: Owners) {
    Owned(v, owner) && Rooted(v) && InodesOk(v) && Shaped(v)
  }

  ghost predicate Sound(v: Vol) { exists owner: Owners :: Valid(v, owner) }

  lemma SoundNow(v: Vol, owner: Owners)
    requires Valid(v, owner)
    ensures Sound(v)
  {
    hide Valid;
  }

  datatype Meaning = File(data: seq<Byte>) | Directory(entries: seq<Entry>)

  function MeaningOf(v: Vol, n: nat): Meaning
    requires n in v.nodes
  {
    if n in v.dirs then Directory(Slots(v.disk, v.nodes[n])) else File(Contents(v.disk, v.nodes[n]))
  }

  /** Every inode but `n` is there before and after, with the same meaning. */
  ghost predicate Others(v: Vol, w: Vol, n: nat) {
    forall m :: m != n ==>
      && (m in w.nodes <==> m in v.nodes) && (m in w.dirs <==> m in v.dirs)
      && (m in v.nodes ==> w.nodes[m] == v.nodes[m] && MeaningOf(w, m) == MeaningOf(v, m))
  }

  predicate BlkSame(disk: seq<Sector>, disk2: seq<Sector>, node: Node, k: nat)
    requires k < BLOCKS
  {
    var a := Blk(disk, node, k);
    Blk(disk2, node, k) == a && |disk2| == |disk| && (a != 0 ==> a < |disk| && disk2[a] == disk[a])
  }

  lemma BlkFrame(v: Vol, owner: Owners, disk2: seq<Sector>, m: nat, k: nat)
    requires Owned(v, owner) && m in v.nodes && SameFor(v.disk, disk2, owner, m) && k < BLOCKS
    ensures BlkSame(v.disk, disk2, v.nodes[m], k)
  {
    hide Ref, Backed, Marked, Linked;
    RefFrame(v, owner, disk2, m, Place(k));
    RefRange(v, owner, m, Place(k));
  }

  lemma RefRange(v: Vol, owner: Owners, n: nat, r: nat)
    requires Owned(v, owner) && n in v.nodes && r < REFS
    ensures var a := Ref(v.disk, v.nodes[n], r);
      a != 0 ==> a in owner && owner[a] == Role(n, r) && v.base <= a < v.base + v.cnt && a < |v.disk| && v.used[a - v.base]
  {
    hide Ref;
    hide Backed;
    var a := Ref(v.disk, v.nodes[n], r);
    if a != 0 {
      assert v.base + (a - v.base) in owner;
    }
  }

  /** What an inode means depends on its own blocks only. */
  lemma NodeFrame(v: Vol, owner: Owners, disk2: seq<Sector>, m: nat)
    requires Owned(v, owner) && m in v.nodes && SameFor(v.disk, disk2, owner, m)
    ensures Contents(disk2, v.nodes[m]) == Contents(v.disk, v.nodes[m]) || !FileShape(v.disk, v.nodes[m])
    ensures Slots(disk2, v.nodes[m]) == Slots(v.disk, v.nodes[m])
    ensures FileShape(v.disk, v.nodes[m]) ==> FileShape(disk2, v.nodes[m])
    ensures DirShape(v.disk, v.nodes[m]) ==> DirShape(disk2, v.nodes[m])
  {
    hide Blk, Owned, SlotsOk, LiveIn, BlockLive, EntryAt;
    var node := v.nodes[m];
    forall k: nat | k < BLOCKS ensures BlkSame(v.disk, disk2, node, k) { BlkFrame(v, owner, disk2, m, k); }
    if FileShape(v.disk, node) {
      forall i | 0 <= i < node.size ensures ByteAt(disk2, node, i) == ByteAt(v.disk, node, i) {
        assert Blk(v.disk, node, i / SECTOR) != 0;
        assert BlkSame(v.disk, disk2, node, i / SECTOR);
      }
    }
    forall j | 0 <= j < SLOTS ensures SlotAt(disk2, node, j) == SlotAt(v.disk, node, j) {
      assert BlkSame(v.disk, disk2, node, j / PER_SECTOR);
    }
    forall k: nat | k < BLOCKS ensures Blk(disk2, node, k) == Blk(v.disk, node, k) {
      assert BlkSame(v.disk, disk2, node, k);
    }
  }

  lemma OthersFrame(v: Vol, owner: Owners, disk2: seq<Sector>, n: nat, m: nat)
    requires Owned(v, owner) && OthersSame(v, owner, disk2, n) && m in v.nodes && m != n
    requires ShapeOf(v.disk, v.nodes[m], m in v.dirs)
    ensures ShapeOf(disk2, v.nodes[m], m in v.dirs)
    ensures MeaningOf(v.(disk := disk2), m) == MeaningOf(v, m)
  {
    hide Owned, FileShape, DirShape, Contents, Slots;
    NodeFrame(v, owner, disk2, m);
  }

  /** `w` is `v` but for one inode, the disk and the block bitmap. */
  predicate ChangedAt(v: Vol, w: Vol, n: nat) {
    n in v.nodes && n in w.nodes && w == v.(used := w.used, disk := w.disk, nodes := v.nodes[n := w.nodes[n]])
  }

  lemma OneChanged(v: Vol, owner: Owners, n: nat, w: Vol, owner2: Owners)
    requires ChangedAt(v, w, n)
    requires Valid(v, owner) && Owned(w, owner2) && OthersSame(v, owner, w.disk, n)
    requires ShapeOf(w.disk, w.nodes[n], n in w.dirs)
    requires n == 0 ==> w.nodes[0].sectors[0] == v.nodes[0].sectors[0]
    ensures Valid(w, owner2) && Others(v, w, n)
  {
    hide Owned, OthersSame, ShapeOf, Contents, Slots;
    forall m | m in v.nodes && m != n
      ensures ShapeOf(w.disk, w.nodes[m], m in w.dirs) && MeaningOf(w, m) == MeaningOf(v, m)
    {
      OthersFrame(v, owner, w.disk, n, m);
    }
  }

  /** A block marked used that no inode refers to, whatever has been written to it. */
  lemma NotSoundLeak(v: Vol, owner: Owners, w: Vol, a: nat)
    requires Owned(v, owner) && v.base <= a < v.base + v.cnt <= v.base + |v.used| && !v.used[a - v.base] && a < |v.disk|
    requires w == v.(used := w.used, disk := w.disk) && |w.used| == |v.used| && w.used[a - v.base]
    requires |w.disk| == |v.disk| && w.disk == v.disk[a := w.disk[a]]
    ensures !Sound(w)
  {
    hide Ref, Shaped, InodesOk, Rooted, Linked, Backed;
    OwnedExactly(v, owner, a);
    forall n: nat, r: nat | n in v.nodes && r < REFS ensures Ref(w.disk, w.nodes[n], r) == Ref(v.disk, v.nodes[n], r) {
      assert v.base + (a - v.base) !in owner;
      RefFrame(v, owner, w.disk, n, r);
    }
    assert forall n: nat, r: nat :: Refers(w, n, r, a) <==> Refers(v, n, r, a);
    forall o: Owners ensures !Valid(w, o) {
      if Owned(w, o) {
        OwnedExactly(w, o, a);
      }
    }
  }

  // ---- the inode table

  const U32: int := 0x1_0000_0000

  /** What inode_sync stores for inode `n`. */
  function DiskInode(n: nat, node: Node): InodeTable.INode {
    InodeTable.Inode(n % U32, node.size % U32, 0, 0, node.sectors, 0, 0)
  }

  /** What a slot of zeros reads as. */
  const BLANK: InodeTable.INode := InodeTable.Inode(0, 0, 0, 0, [0, 0, 0, 0, 0, 0, 0, 0, 0, 0, 0, 0, 0], 0, 0)

  /** What inode_open reads for inode `n`. */
  function SlotOf(v: Vol, n: nat): InodeTable.INode
    requires |v.itable| == InodeTable.TABLE_SECTS && n < MAX_FILES
  {
    InodeTable.Decode(InodeTable.Slot(v.itable, 0, n))
  }

  /** Closed and opened again, inode `n` is what it was. */
  predicate Reopens(v: Vol, n: nat) {
    && |v.itable| == InodeTable.TABLE_SECTS && n < MAX_FILES && n in v.nodes
    && SlotOf(v, n) == DiskInode(n, v.nodes[n])
  }

  /** All inodes are. */
  predicate Persistent(v: Vol) { forall n :: n in v.nodes ==> Reopens(v, n) }

  /** The slot of an inode below 256 has a number congruent to its own, and an
      inode in use whose number is in the slot it is stored to is there as it is
      in memory. */
  predicate SlotOk(v: Vol, n: nat)
    requires |v.itable| == InodeTable.TABLE_SECTS && n < 256
  {
    var i := SlotOf(v, n);
    && (n in v.nodes ==> i.no % 256 == n)
    && (i.no as nat in v.nodes && i.no % 256 == n ==> i == DiskInode(i.no, v.nodes[i.no as nat]))
  }

  /** The slots from 256 on are blank, as the format left them. */
  predicate TableOk(v: Vol) {
    && |v.itable| == InodeTable.TABLE_SECTS
    && (forall n: nat :: 256 <= n < MAX_FILES ==> SlotOf(v, n) == BLANK)
    && (forall n: nat :: n < 256 ==> SlotOk(v, n))
  }

  /** The slot an inode is stored to has its number. */
  predicate Tabled(v: Vol, n: nat) { |v.itable| == InodeTable.TABLE_SECTS && SlotOf(v, n % 256).no == n }

  /** A slot with the number asked for has the inode asked for. */
  lemma NumberDecides(v: Vol, n: nat)
    requires TableOk(v) && n in v.nodes && n < MAX_FILES
    ensures SlotOf(v, n).no == n <==> Reopens(v, n)
    ensures Reopens(v, n) <==> n < 256 && Tabled(v, n)
  {
    hide SlotOf;
    assert n < 256 ==> SlotOk(v, n);
  }

  /** What a directory is when it is opened: the root never is closed, any other
      is read from its slot. */
  predicate InHand(v: Vol, n: nat) { n == 0 || Reopens(v, n) }

  function NodeOf(i: InodeTable.INode): Node { Inode(i.size, i.sectors) }

  /** Inode `n` dropped from memory and read from its slot again. */
  function ReadBack(v: Vol, n: nat): Vol
    requires |v.itable| == InodeTable.TABLE_SECTS && n < MAX_FILES
  {
    v.(nodes := v.nodes[n := NodeOf(SlotOf(v, n))])
  }

  /** The table of `w` is that of `v` with inode `k` stored in slot k % 256. */
  predicate Stamped(v: Vol, w: Vol, k: nat) {
    && |v.itable| == |w.itable| == InodeTable.TABLE_SECTS && k < MAX_FILES && k in w.nodes
    && forall m: nat :: m < MAX_FILES ==> SlotOf(w, m) == if m == k % 256 then DiskInode(k, w.nodes[k]) else SlotOf(v, m)
  }

  /** The inodes `ks` have been changed and stored, and no others. An inode that
      is not among them still opens as it was exactly when none of them has a
      number from 256 on that is congruent to its own; and all of them open as
      they are exactly when all their numbers are below 256. */
  ghost predicate Saved(v: Vol, w: Vol, ks: set<nat>) {
    && (forall m :: m in v.nodes && m in w.nodes && m !in ks ==>
          (Reopens(w, m) <==> Reopens(v, m) && forall k :: k in ks ==> k < 256 || k % 256 != m))
    && (TableOk(v) ==> TableOk(w))
    && (TableOk(v) ==> ((forall k :: k in ks ==> Reopens(w, k)) <==> forall k :: k in ks ==> k < 256))
  }

  /** `w` has the inodes of `v`, but for those in `ks`, which it all has. */
  ghost predicate SameBut(v: Vol, w: Vol, ks: set<nat>) {
    && ks <= w.nodes.Keys
    && forall m :: m !in ks ==> (m in w.nodes <==> m in v.nodes) && (m in v.nodes ==> w.nodes[m] == v.nodes[m])
  }

  /** So a volume whose inodes all survive being closed stays one exactly when the numbers stored are below 256. */
  lemma PersistentExactly(v: Vol, w: Vol, ks: set<nat>)
    requires TableOk(v) && Persistent(v) && SameBut(v, w, ks) && Saved(v, w, ks)
    ensures Persistent(w) <==> forall k :: k in ks ==> k < 256
  {
    hide Reopens, TableOk;
    if forall k :: k in ks ==> k < 256 {
      forall m | m in w.nodes ensures Reopens(w, m) {
        if m !in ks { assert m in v.nodes && Reopens(v, m); }
      }
    }
  }

  lemma StampOk(v: Vol, w: Vol, k: nat)
    requires TableOk(v) && Stamped(v, w, k) && SameBut(v, w, {k})
    ensures TableOk(w) && (Reopens(w, k) <==> k < 256)
  {
    hide SlotOf, SlotOk;
    forall n: nat | n < 256 ensures SlotOk(w, n) {
      if n == k % 256 { SlotStored(w, n, k); } else { SlotKept(v, w, n, {k}); }
    }
    NumberDecides(w, k);
    StoredLow(w, k);
  }

  lemma SlotStored(w: Vol, n: nat, k: nat)
    requires |w.itable| == InodeTable.TABLE_SECTS && k in w.nodes && k < MAX_FILES && n == k % 256
    requires SlotOf(w, n) == DiskInode(k, w.nodes[k])
    ensures SlotOk(w, n)
  {
    hide SlotOf;
  }

  lemma SlotKept(v: Vol, w: Vol, n: nat, ks: set<nat>)
    requires |v.itable| == |w.itable| == InodeTable.TABLE_SECTS && n < 256 && SlotOk(v, n) && SlotOf(w, n) == SlotOf(v, n)
    requires SameBut(v, w, ks) && forall k :: k in ks ==> k % 256 != n
    ensures SlotOk(w, n)
  {
    hide SlotOf;
  }

  lemma StoredLow(w: Vol, k: nat)
    requires TableOk(w) && k in w.nodes && k < MAX_FILES && (k < 256 ==> SlotOf(w, k) == DiskInode(k, w.nodes[k]))
    ensures Reopens(w, k) <==> k < 256
  {
    hide SlotOf, SlotOk;
    NumberDecides(w, k);
  }

  lemma SavedOne(v: Vol, w: Vol, k: nat)
    requires Stamped(v, w, k) && SameBut(v, w, {k})
    ensures Saved(v, w, {k})
  {
    hide SlotOf, TableOk;
    if TableOk(v) { StampOk(v, w, k); }
  }

  lemma SavedTwo(v: Vol, u: Vol, w: Vol, a: nat, b: nat)
    requires a != b && u.nodes == w.nodes && Stamped(v, u, a) && Stamped(u, w, b) && SameBut(v, w, {a, b})
    ensures Saved(v, w, {a, b})
  {
    hide SlotOf, TableOk, Reopens, Stamped;
    forall m | m in v.nodes && m in w.nodes && m != a && m != b
      ensures Reopens(w, m) <==> Reopens(v, m) && (a < 256 || a % 256 != m) && (b < 256 || b % 256 != m)
    {
      OtherSlot(v, u, w, a, b, m);
    }
    if TableOk(v) {
      TwoStamps(v, u, w, a, b);
    }
  }

  lemma OtherSlot(v: Vol, u: Vol, w: Vol, a: nat, b: nat, m: nat)
    requires Stamped(v, u, a) && Stamped(u, w, b) && m in v.nodes && m in w.nodes && w.nodes[m] == v.nodes[m]
    requires m != a && m != b
    ensures Reopens(w, m) <==> Reopens(v, m) && (a < 256 || a % 256 != m) && (b < 256 || b % 256 != m)
  {
    hide SlotOf;
  }

  /** Nothing but inode_sync writes to the table. */
  lemma StampedSince(v: Vol, u: Vol, w: Vol, n: nat)
    requires u.itable == v.itable && Stamped(u, w, n)
    ensures Stamped(v, w, n)
  {
    hide InodeTable.Decode, InodeTable.Slot;
  }

  lemma OthersSameBut(v: Vol, w: Vol, n: nat)
    requires Others(v, w, n) && n in w.nodes
    ensures SameBut(v, w, {n})
  {
    hide Slots, Contents;
  }

  /** Storing an inode changes what no inode means. */
  lemma OthersStored(v: Vol, w: Vol, n: nat, itable: seq<Sector>)
    requires Others(v, w, n)
    ensures Others(v, w.(itable := itable), n)
  {
    hide Slots, Contents;
    var x := w.(itable := itable);
    forall m | m in v.nodes && m != n ensures MeaningOf(x, m) == MeaningOf(v, m) {
      assert MeaningOf(w, m) == MeaningOf(v, m);
    }
  }

  lemma TwoStamps(v: Vol, u: Vol, w: Vol, a: nat, b: nat)
    requires a != b && u.nodes == w.nodes && Stamped(v, u, a) && Stamped(u, w, b) && SameBut(v, w, {a, b}) && TableOk(v)
    ensures TableOk(w) && (Reopens(w, a) && Reopens(w, b) <==> a < 256 && b < 256)
  {
    hide SlotOf, SlotOk, SameBut;
    forall n: nat | n < 256 ensures SlotOk(w, n) {
      if n == b % 256 { SlotStored(w, n, b); }
      else if n == a % 256 { SlotStored(w, n, a); }
      else { SlotKept(v, w, n, {a, b}); }
    }
    if a % 256 == a && b % 256 == b {
      StoredLow(w, a);
    } else {
      NumberDecides(w, a);
    }
    NumberDecides(w, b);
  }

  /** An inode changed in memory and not stored: the table agrees with memory
      still exactly when the inode is the same or not in the table. */
  lemma Unsaved(v: Vol, w: Vol, n: nat)
    requires n in v.nodes && n < MAX_FILES && SameBut(v, w, {n}) && w.itable == v.itable
    requires w.nodes[n].size == v.nodes[n].size
    ensures TableOk(v) ==> (TableOk(w) <==> w.nodes[n] == v.nodes[n] || !Tabled(v, n))
    ensures Persistent(v) ==> (Persistent(w) <==> w.nodes[n] == v.nodes[n])
  {
    hide InodeTable.Decode, InodeTable.Slot;
    assert forall m: nat :: m < MAX_FILES && |v.itable| == InodeTable.TABLE_SECTS ==> SlotOf(w, m) == SlotOf(v, m);
    if TableOk(v) {
      assert SlotOk(v, n % 256);
      assert TableOk(w) ==> SlotOk(w, n % 256);
      if w.nodes[n] == v.nodes[n] || !Tabled(v, n) {
        forall m: nat | m < 256 ensures SlotOk(w, m) { assert SlotOk(v, m); }
      }
    }
  }

  // ---- directories that do not reopen

  /** What dir_open makes of a directory that is not in hand: from 256 on a copy
      with number 0 and no blocks, below 256 the inode from 256 on that was last
      stored to the slot, as it is in memory if it is still in use. */
  lemma NotReopened(v: Vol, owner: Owners, n: nat)
    requires Valid(v, owner) && TableOk(v) && n in v.nodes && !InHand(v, n)
    ensures n < MAX_FILES && SlotOf(v, n).no != n
    ensures n >= 256 ==> SlotOf(v, n) == BLANK
    ensures n < 256 ==> SlotOf(v, n).no >= 256 && SlotOf(v, n).no % 256 == n
    ensures n < 256 && SlotOf(v, n).no as nat in v.nodes ==> SlotOf(v, n) == DiskInode(SlotOf(v, n).no, v.nodes[SlotOf(v, n).no as nat])
  {
    hide Owned, Shaped, Rooted, SlotOf;
    NumberDecides(v, n);
    assert n < 256 ==> SlotOk(v, n);
  }

  /** No name is found in a blank copy. Adding an entry to it gives it a block
      that was free; stored, it takes the slot of the root, which is lost to the
      next mount. */
  lemma BlankDirectory(v: Vol, owner: Owners, c: InodeTable.INode)
    requires Valid(v, owner) && c.no == 0
    ensures forall j: nat :: j < SLOTS ==> Slots(v.disk, NodeOf(BLANK))[j] == DEAD
    ensures c.sectors[0] != v.base ==> !Reopens(v.(itable := InodeTable.Synced(v.itable, 0, c)), 0)
    ensures 0 < |v.used| && v.used[0]
  {
    hide Owned, Shaped, InodeTable.Slot, InodeTable.Decode, InodeTable.Synced;
    forall k: nat | k < BLOCKS ensures Blk(v.disk, NodeOf(BLANK), k) == 0 {
    }
    InodeTable.SyncExactly(v.itable, 0, c);
    RootTaken(v, owner);
  }

  lemma RootTaken(v: Vol, owner: Owners)
    requires Valid(v, owner)
    ensures 0 < |v.used| && v.used[0]
  {
    hide Backed, Shaped, WordAt;
    assert Ref(v.disk, v.nodes[0], 0) == v.base;
    RefRange(v, owner, 0, 0);
  }

  // ---- counting blocks

  /** The owned addresses below `limit`. */
  function Below(owner: Owners, limit: nat): set<nat> { set a | a in owner && a < limit }

  lemma {:induction false} CountBelow(v: Vol, owner: Owners, m: nat)
    requires Owned(v, owner) && m <= |v.used|
    ensures Free(v.used[..m]) + |Below(owner, v.base + m)| == if m <= v.cnt then m else v.cnt
  {
    hide Linked, Backed;
    if m == 0 {
      assert Below(owner, v.base) == {};
    } else {
      CountBelow(v, owner, m - 1);
      assert v.used[..m][..m - 1] == v.used[..m - 1];
      var below, a := Below(owner, v.base + m - 1), v.base + m - 1;
      if a in owner {
        assert Below(owner, v.base + m) == below + {a};
      } else {
        assert Below(owner, v.base + m) == below;
      }
      assert m - 1 < v.cnt ==> (v.used[m - 1] <==> v.base + (m - 1) in owner);
    }
  }

  /** No block is lost: those free and those some inode owns make up the volume. */
  lemma Conservation(v: Vol, owner: Owners)
    requires Owned(v, owner)
    ensures Free(v.used) + |owner| == v.cnt
  {
    hide Linked, Backed;
    CountBelow(v, owner, |v.used|);
    assert v.used[..|v.used|] == v.used;
    assert Below(owner, v.base + |v.used|) == owner.Keys;
    assert |owner| == |owner.Keys|;
  }

  /** Block `lba` went from free to used, and nothing else changed. */
  predicate Took(v: Vol, w: Vol, lba: int) {
    && v.base <= lba < v.base + v.cnt <= v.base + |v.used| && !v.used[lba - v.base]
    && w == v.(used := v.used[lba - v.base := true])
  }

  /** The 140 block addresses of an inode, absent ones 0, as every operation collects them. */
  function AllBlocks(disk: seq<Sector>, node: Node): (all: seq<Word>)
    requires node.sectors[DIRECT] < |disk|
    ensures |all| == BLOCKS && forall k :: 0 <= k < BLOCKS ==> all[k] == Blk(disk, node, k)
  {
    var tail := if node.sectors[DIRECT] == 0 then seq(128, i => 0) else TableOf(disk[node.sectors[DIRECT]]);
    var all := node.sectors[..DIRECT] + tail;
    assert forall k :: DIRECT <= k < BLOCKS ==> all[k] == tail[k - DIRECT];
    all
  }

  // ---- inode_release

  /** Reference `r` has been given back once the loop over the blocks has reached `k`. */
  predicate Given(r: nat, k: nat) { r == DIRECT || (r < DIRECT && r < k) || (DIRECT < r && r <= k) }

  predicate Releasing(v: Vol, owner: Owners, n: nat, used2: seq<bool>, k: nat) {
    && |used2| == |v.used|
    && forall b :: 0 <= b < |v.used| ==>
      (used2[b] <==> v.used[b] && !(v.base + b in owner && owner[v.base + b].ino == n && Given(owner[v.base + b].at, k)))
  }

  lemma ReleaseStep(v: Vol, owner: Owners, n: nat, used2: seq<bool>, k: nat)
    requires Owned(v, owner) && n in v.nodes && k < BLOCKS && Releasing(v, owner, n, used2, k)
    ensures var a := Blk(v.disk, v.nodes[n], k);
      if a == 0 then Releasing(v, owner, n, used2, k + 1)
      else v.base <= a < v.base + |used2| && Releasing(v, owner, n, used2[a - v.base := false], k + 1)
  {
    hide Ref;
    hide Linked;
    var a := Blk(v.disk, v.nodes[n], k);
    RefRange(v, owner, n, Place(k));
    assert forall r: nat :: Given(r, k + 1) <==> Given(r, k) || r == Place(k);
  }

  lemma ReleaseTable(v: Vol, owner: Owners, n: nat)
    requires Owned(v, owner) && n in v.nodes
    ensures var a := v.nodes[n].sectors[DIRECT];
      if a == 0 then Releasing(v, owner, n, v.used, 0)
      else v.base <= a < v.base + |v.used| && a < |v.disk| && Releasing(v, owner, n, v.used[a - v.base := false], 0)
  {
    hide Linked;
    hide WordAt;
    var a := v.nodes[n].sectors[DIRECT];
    assert a == Ref(v.disk, v.nodes[n], DIRECT);
    RefRange(v, owner, n, DIRECT);
  }

  lemma ReleaseDone(v: Vol, owner: Owners, n: nat, used2: seq<bool>, k: nat)
    requires Owned(v, owner) && n in v.nodes && Releasing(v, owner, n, used2, k)
    requires k == BLOCKS || (k == DIRECT && v.nodes[n].sectors[DIRECT] == 0)
    ensures Released(v, used2, OwnedBy(owner, n))
  {
    hide Linked;
    hide WordAt;
  }

  /** The table with the slot of inode `n` cleared. */
  predicate Cleared(v: Vol, w: Vol, n: nat) {
    && |v.itable| == |w.itable| == InodeTable.TABLE_SECTS && n < MAX_FILES
    && InodeTable.Slot(w.itable, 0, n) == Zeros(InodeTable.INODE)
    && forall m: nat :: m < MAX_FILES && m != n ==> SlotOf(w, m) == SlotOf(v, m)
  }

  /** `w` is `v` without inode `n` and the blocks it owned. */
  predicate NodeGone(v: Vol, w: Vol, n: nat, owner: Owners) {
    && n < |v.inodes|
    && w == v.(used := w.used, inodes := v.inodes[n := false], nodes := v.nodes - {n}, dirs := v.dirs - {n}, itable := w.itable)
    && Released(v, w.used, OwnedBy(owner, n)) && Cleared(v, w, n)
  }

  /** Clearing the slot of an inode that goes away harms no other. */
  lemma ClearedOk(v: Vol, w: Vol, n: nat)
    requires Cleared(v, w, n) && w.nodes == v.nodes - {n}
    ensures forall m :: m in w.nodes ==> (Reopens(w, m) <==> Reopens(v, m))
    ensures TableOk(v) ==> TableOk(w)
    ensures Persistent(v) ==> Persistent(w)
  {
    hide SlotOf;
    BlankSlot(w, n);
    if TableOk(v) {
      forall m: nat | m < 256 ensures SlotOk(w, m) { assert SlotOk(v, m); }
    }
  }

  lemma BlankSlot(w: Vol, n: nat)
    requires |w.itable| == InodeTable.TABLE_SECTS && n < MAX_FILES && InodeTable.Slot(w.itable, 0, n) == Zeros(InodeTable.INODE)
    ensures SlotOf(w, n) == BLANK
  {
    hide InodeTable.Slot, InodeTable.Decode;
    InodeTable.DecodeZeros();
    assert BLANK.sectors == seq(13, k => 0);
  }

  lemma NodeGoneOk(v: Vol, owner: Owners, n: nat, w: Vol)
    requires Valid(v, owner) && n in v.nodes && n != 0 && NodeGone(v, w, n, owner)
    ensures Valid(w, Without(owner, OwnedBy(owner, n))) && Others(v, w, n)
  {
    hide Linked, Backed, Marked, Released, OwnedBy, Without, Ref, ShapeOf, Contents, Slots;
    RemoveInv(v, owner, n, w.used);
  }

  class Partition {
    var v: Vol
    ghost var owner: Owners

    constructor (v: Vol, ghost owner: Owners)
      ensures this.v == v && this.owner == owner
    {
      this.v, this.owner := v, owner;
    }

    ghost predicate Ok()
      reads this
    {
      Valid(v, owner)
    }

    /** block_bitmap_alloc: the address of the first free block, or -1. */
    method AllocBlock() returns (lba: int)
      requires v.cnt <= |v.used| && forall b :: v.cnt <= b < |v.used| ==> v.used[b]
      modifies this
      ensures owner == old(owner)
      ensures lba == -1 ==> v == old(v) && Free(v.used) == 0
      ensures lba != -1 ==> Took(old(v), v, lba) && Free(v.used) == Free(old(v).used) - 1
      ensures lba != -1 ==> forall b :: 0 <= b < lba - v.base ==> v.used[b]
    {
      var bit := FirstRun(v.used, 1);
      if bit == -1 {
        forall b | 0 <= b < |v.used| ensures v.used[b] {
          assert !v.used[b] <==> ClearRun(v.used, b, 1);
        }
        FreeZero(v.used);
        return -1;
      }
      assert !v.used[bit];
      forall b | 0 <= b < bit ensures v.used[b] {
        assert !v.used[b] <==> ClearRun(v.used, b, 1);
      }
      FreeTaken(v.used, bit, true);
      v := v.(used := v.used[bit := true]);
      return v.base + bit;
    }

    /** Clearing the bit of the block at `a`, as every release of a block does. */
    method FreeBlock(a: nat)
      requires v.base <= a < v.base + |v.used|
      modifies this
      ensures owner == old(owner)
      ensures v == old(v).(used := old(v).used[a - old(v).base := false])
    {
      v := v.(used := v.used[a - v.base := false]);
    }

    /** inode_sync, with slot no % 256 as `InodeTable` has it. */
    method SyncInode(n: nat)
      requires Ok() && n in v.nodes
      modifies this
      ensures Ok() && owner == old(owner) && v == old(v).(itable := v.itable) && Stamped(old(v), v, n)
    {
      hide Valid, DiskInode, SlotOf;
      InTable(v, owner, n);
      SyncStamps(v, n);
      TableApart(v, owner, InodeTable.Synced(v.itable, 0, DiskInode(n, v.nodes[n])));
      v := v.(itable := InodeTable.Synced(v.itable, 0, DiskInode(n, v.nodes[n])));
    }

    /** inode_release: every block of the inode, its table, its number and its
        slot are given back. An inode that is not open is first read from its
        slot, and the kernel halts exactly when the slot has another number. */
    method InodeRelease(n: nat, open: bool) returns (halted: bool)
      requires Ok() && n in v.nodes && n != 0
      requires !open ==> TableOk(v)
      modifies this
      ensures n < MAX_FILES && (halted <==> !open && SlotOf(old(v), n).no != n)
      ensures halted ==> v == old(v) && owner == old(owner)
      ensures !halted ==> NodeGone(old(v), v, n, old(owner))
      ensures Ok() && (!halted ==> Others(old(v), v, n))
    {
      hide Linked, Backed, Marked, Shaped, WordAt, Releasing, Others, SlotOf;
      ghost var v0 := v;
      if !open && SlotOf(v, n).no != n {
        return true;
      }
      if !open { NumberDecides(v, n); }
      assert !open ==> SlotOf(v, n) == DiskInode(n, v.nodes[n]);
      var node := v.nodes[n];
      var table := node.sectors[DIRECT];
      var blockCnt := DIRECT;
      ReleaseTable(v, owner, n);
      var all := AllBlocks(v.disk, node);
      if table != 0 {
        blockCnt := BLOCKS;
        NotBase(v, owner, n, DIRECT);
        assert table - v.base > 0;
        FreeBlock(table);
      }
      var k := 0;
      while k < blockCnt
        invariant 0 <= k <= blockCnt
        invariant owner == old(owner) && v == v0.(used := v.used)
        invariant Releasing(v0, owner, n, v.used, k)
      {
        ReleaseStep(v0, owner, n, v.used, k);
        if all[k] != 0 {
          NotBase(v0, owner, n, Place(k));
          assert all[k] - v.base > 0;
          FreeBlock(all[k]);
        }
        k := k + 1;
      }
      ReleaseDone(v0, owner, n, v.used, k);
      v := v.(inodes := v.inodes[n := false], nodes := v.nodes - {n}, dirs := v.dirs - {n},
      itable := InodeTable.Stored(v.itable, 0, n, Zeros(InodeTable.INODE)));
      SlotClears(v0, n, v);
      NodeGoneOk(v0, owner, n, v);
      owner := Without(owner, OwnedBy(owner, n));
      halted := false;
    }
  }

  lemma InTable(v: Vol, owner: Owners, n: nat)
    requires Valid(v, owner) && n in v.nodes
    ensures |v.itable| == InodeTable.TABLE_SECTS && n < MAX_FILES
  {
    hide Owned, Shaped;
  }

  /** Blocks and inodes in memory do not depend on the table. */
  lemma TableApart(v: Vol, owner: Owners, itable: seq<Sector>)
    requires Valid(v, owner) && |itable| == |v.itable|
    ensures Valid(v.(itable := itable), owner)
  {
    hide Linked, Backed, Marked, ShapeOf;
  }

  lemma SyncStamps(v: Vol, n: nat)
    requires |v.itable| == InodeTable.TABLE_SECTS && n in v.nodes && n < MAX_FILES
    ensures var w := v.(itable := InodeTable.Synced(v.itable, 0, DiskInode(n, v.nodes[n])));
      |w.itable| == |v.itable| && Stamped(v, w, n)
  {
    hide InodeTable.Slot, InodeTable.Decode, InodeTable.Synced;
    InodeTable.SyncedSlots(v.itable, 0, DiskInode(n, v.nodes[n]));
  }

  lemma SlotClears(v: Vol, n: nat, w: Vol)
    requires |v.itable| == InodeTable.TABLE_SECTS && n < MAX_FILES
    requires w.itable == InodeTable.Stored(v.itable, 0, n, Zeros(InodeTable.INODE))
    ensures Cleared(v, w, n)
  {
    hide InodeTable.Slot, InodeTable.Decode, InodeTable.Stored;
    forall m: nat | m < MAX_FILES
      ensures InodeTable.Slot(w.itable, 0, m) == if m == n then Zeros(InodeTable.INODE) else InodeTable.Slot(v.itable, 0, m)
    {
      InodeTable.DeleteExactly(v.itable, 0, n, m);
    }
  }

  /** The first data block is the root directory's, so no other inode gives it back. */
  lemma NotBase(v: Vol, owner: Owners, n: nat, r: nat)
    requires Valid(v, owner) && n in v.nodes && n != 0 && r < REFS && Ref(v.disk, v.nodes[n], r) != 0
    ensures Ref(v.disk, v.nodes[n], r) > v.base
  {
    hide Backed, Shaped, WordAt;
    RefRange(v, owner, n, r);
    RefRange(v, owner, 0, 0);
  }
}
