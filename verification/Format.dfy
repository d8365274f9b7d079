/** fs/fs.c, partition_format: the size of the block bitmap, the layout of the
    partition, and the volume a fresh format leaves. */
module Format {
  import opened Bitmaps
  import opened Sectors
  import opened DirSlots
  import opened Volume
  import FileSystem
  import InodeTable

  const BITS: nat := 4096            // bits per sector
  const INODE_SIZE: nat := 76
  const INODE_BITMAP: nat := 1       // 4096 inodes, one bit each
  const INODE_TABLE: nat := 608      // 4096 inodes of 76 bytes in sectors of 512
  const FIXED: nat := 611            // boot and super block, inode bitmap and table

  lemma TableSects()
    ensures CeilDiv(INODE_SIZE * MAX_FILES, SECTOR) == INODE_TABLE && CeilDiv(MAX_FILES, BITS) == INODE_BITMAP
  {
  }

  function CeilDiv(x: nat, step: nat): nat
    requires step > 0
  {
    (x + step - 1) / step
  }

  // ---- the sizing loop

  /** One round: the sectors a bitmap needs for the blocks that `sects` sectors of bitmap leave. */
  function Next(free: nat, sects: nat): (r: nat)
    requires 1 <= free && sects <= free
    ensures r <= free
  {
    CeilDiv(free - sects, BITS)
  }

  /** The value of block_bitmap_sects after `n` rounds. */
  function Round(free: nat, n: nat): (r: nat)
    requires 1 <= free
    ensures r <= free
  {
    if n == 0 then CeilDiv(free, BITS) else Next(free, Round(free, n - 1))
  }

  /** The loop stops after round `n` + 1 when that round changed nothing. */
  ghost predicate Stops(free: nat)
    requires 1 <= free
  {
    exists n: nat :: Round(free, n + 1) == Round(free, n)
  }

  function Settled(free: nat): nat { CeilDiv(free, BITS + 1) }

  /** The only value a round can leave unchanged, when there is one. */
  lemma Fixpoint(free: nat, sects: nat)
    requires 1 <= free && sects <= free
    ensures Next(free, sects) == sects <==> free % (BITS + 1) != 1 && sects == Settled(free)
  {
  }

  /** Twice the distance from the settled value, with the side on which the round can overshoot made larger. */
  function Distance(free: nat, sects: nat): nat {
    var s := Settled(free);
    if sects == s then 0
    else if free == (BITS + 1) * s then (if sects < s then 2 * (s - sects) + 1 else 2 * (sects - s))
    else (if sects > s then 2 * (sects - s) + 1 else 2 * (s - sects))
  }

  lemma Closer(free: nat, sects: nat)
    requires 1 <= free && sects <= free && free % (BITS + 1) != 1 && sects != Settled(free)
    ensures Distance(free, Next(free, sects)) < Distance(free, sects)
  {
    var s := Settled(free);
    var r := (BITS + 1) * s - free;
    assert 0 <= r <= BITS - 1;
    var e := sects - s;
    assert free - sects == BITS * s - r - e;
    NextIs(s, r, e, free - sects);
  }

  lemma NextIs(s: nat, r: nat, e: int, left: nat)
    requires left == BITS * s - r - e && r <= BITS - 1 && e != 0
    ensures var f := CeilDiv(left, BITS) - s;
      && (e == 1 ==> f == 0 || (f == -1 && r != 0))
      && (e == -1 ==> f == 0 || (f == 1 && r == 0))
      && (e >= 2 ==> -e < f <= 0) && (e <= -2 ==> 0 <= f < -e)
  {
    var c := CeilDiv(left, BITS);
    assert BITS * c - BITS < left <= BITS * c;
  }

  lemma {:induction false} Reaches(free: nat, n: nat) returns (m: nat)
    requires 1 <= free && free % (BITS + 1) != 1
    ensures Round(free, m) == Settled(free)
    decreases Distance(free, Round(free, n))
  {
    if Round(free, n) == Settled(free) {
      return n;
    }
    Closer(free, Round(free, n));
    assert Round(free, n + 1) == Next(free, Round(free, n));
    m := Reaches(free, n + 1);
  }

  /** The sizing loop ends for exactly those sizes; for the others two values alternate for ever. */
  lemma StopsExactly(free: nat)
    requires 1 <= free
    ensures Stops(free) <==> free % (BITS + 1) != 1
  {
    if free % (BITS + 1) != 1 {
      var m := Reaches(free, 0);
      Fixpoint(free, Settled(free));
      assert Round(free, m + 1) == Round(free, m);
    } else {
      forall n: nat ensures Round(free, n + 1) != Round(free, n) {
        Fixpoint(free, Round(free, n));
      }
    }
  }

  lemma Alternates(free: nat, sects: nat)
    requires 1 <= free && free % (BITS + 1) == 1 && (sects == free / (BITS + 1) || sects == free / (BITS + 1) + 1)
    ensures Next(free, sects) == free / (BITS + 1) + (if sects == free / (BITS + 1) then 1 else 0)
  {
  }

  method SizeBitmap(free: nat) returns (sects: nat, bitLen: nat)
    requires 1 <= free && free % (BITS + 1) != 1
    ensures sects == Settled(free) && bitLen == free - sects && sects == CeilDiv(bitLen, BITS)
  {
    var prev := 0;
    sects, bitLen := CeilDiv(free, BITS), 0;
    while sects != prev
      invariant sects <= free && prev <= free && (sects == prev ==> bitLen == free - sects)
      invariant sects == prev ==> Next(free, sects) == sects
      decreases Distance(free, sects), sects != prev
    {
      prev := sects;
      bitLen := free - sects;
      Fixpoint(free, prev);
      if sects != Settled(free) { Closer(free, sects); }
      sects := CeilDiv(bitLen, BITS);
    }
    Fixpoint(free, sects);
  }

  // ---- the block bitmap

  /** The bitmap a format writes: the root directory's block and everything past the last block. */
  function FreshBit(bitLen: nat, i: nat): bool { i >= bitLen || (i == 0 && bitLen >= 8) }

  function Fresh(bitLen: nat, sects: nat): (b: seq<bool>)
    ensures |b| == BITS * sects && forall i :: 0 <= i < |b| ==> b[i] == FreshBit(bitLen, i)
  {
    seq(BITS * sects, i requires 0 <= i < BITS * sects => FreshBit(bitLen, i))
  }

  lemma ZeroByte(odd: nat)
    requires odd < 8
    ensures !TestBit(0, odd) && TestBit(0xff, odd) && TestBit(0 | 1, odd) == (odd == 0)
  {
  }

  /** Lines 143-156. The tail is set byte by byte and its first byte then cleared
      up to the last block, which also clears bit 0 when there are fewer than
      eight blocks. `memory` is the zeroed buffer. */
  method InitBitmap(memory: array<bv8>, bitLen: nat)
    requires bitLen < 8 * memory.Length && memory.Length % SECTOR == 0
    requires forall i :: 0 <= i < memory.Length ==> memory[i] == 0
    modifies memory
    ensures forall i :: 0 <= i < BITS * CeilDiv(bitLen, BITS) && i / 8 < memory.Length ==> (TestBit(memory[i / 8], i % 8) <==> FreshBit(bitLen, i))
  {
    memory[0] := memory[0] | 1;
    var lastByte, lastBit := bitLen / 8, bitLen % 8;
    var end := lastByte + (SECTOR - lastByte % SECTOR);
    var k := lastByte;
    while k < end
      invariant lastByte <= k <= end
      invariant forall i :: 0 <= i < memory.Length ==> memory[i] == if lastByte <= i < k then 0xff else if i == 0 then 1 else 0
    {
      memory[k] := 0xff;
      k := k + 1;
    }
    var bitIdx := 0;
    forall q: nat | q < 8 ensures TestBit(0xff, q) { ZeroByte(q); }
    while bitIdx < lastBit
      invariant bitIdx <= lastBit
      invariant forall i :: 0 <= i < memory.Length && i != lastByte ==> memory[i] == if lastByte <= i < end then 0xff else if i == 0 then 1 else 0
      invariant forall q: nat :: q < 8 ==> (TestBit(memory[lastByte], q) <==> q >= bitIdx)
    {
      ghost var was := memory[lastByte];
      memory[lastByte] := WithBit(memory[lastByte], bitIdx, false);
      forall q: nat | q < 8 ensures TestBit(memory[lastByte], q) <==> q >= bitIdx + 1 {
        WithBitTest(was, bitIdx, false, q);
      }
      bitIdx := bitIdx + 1;
    }
    forall i | 0 <= i < BITS * CeilDiv(bitLen, BITS) && i / 8 < memory.Length
      ensures TestBit(memory[i / 8], i % 8) <==> FreshBit(bitLen, i)
    {
      FreshAt(memory[..], bitLen, i);
    }
  }

  /** What the bytes left by the two passes say about bit `i`. */
  lemma FreshAt(m: seq<bv8>, bitLen: nat, i: nat)
    requires bitLen / 8 < |m| && i / 8 < |m| && i < BITS * CeilDiv(bitLen, BITS)
    requires var k := bitLen / 8;
      && (forall q: nat :: q < 8 ==> (TestBit(m[k], q) <==> q >= bitLen % 8))
      && forall j :: 0 <= j < |m| && j != k ==> m[j] == if k <= j < k + (SECTOR - k % SECTOR) then 0xff else if j == 0 then 1 else 0
    ensures TestBit(m[i / 8], i % 8) <==> FreshBit(bitLen, i)
  {
    ZeroByte(i % 8);
  }

  // ---- the layout

  datatype Layout = Layout(bitmapLba: nat, inodeBitmapLba: nat, inodeTableLba: nat, dataLba: nat)

  function LayoutOf(start: nat, sects: nat): Layout {
    var bitmap := start + 2;
    var inodeBitmap := bitmap + sects;
    var inodeTable := inodeBitmap + INODE_BITMAP;
    Layout(bitmap, inodeBitmap, inodeTable, inodeTable + INODE_TABLE)
  }

  /** Which region a sector of the partition belongs to. */
  datatype Region = Boot | Super | BlockBitmap | InodeBitmap | InodeTable | Data

  predicate InRegion(start: nat, l: Layout, bitLen: nat, a: nat, g: Region) {
    match g
    case Boot => a == start
    case Super => a == start + 1
    case BlockBitmap => l.bitmapLba <= a < l.inodeBitmapLba
    case InodeBitmap => l.inodeBitmapLba <= a < l.inodeTableLba
    case InodeTable => l.inodeTableLba <= a < l.dataLba
    case Data => l.dataLba <= a < l.dataLba + bitLen
  }

  function RegionAt(start: nat, l: Layout, a: nat): Region {
    if a == start then Boot
    else if a == start + 1 then Super
    else if a < l.inodeBitmapLba then BlockBitmap
    else if a < l.inodeTableLba then InodeBitmap
    else if a < l.dataLba then InodeTable
    else Data
  }

  /** The six regions tile the partition: each of its sectors lies in exactly one of them, and no other sector in any. */
  lemma RegionsTile(start: nat, secCnt: nat, sects: nat, bitLen: nat)
    requires secCnt > FIXED && sects == Settled(secCnt - FIXED) && bitLen == secCnt - FIXED - sects
    ensures var l := LayoutOf(start, sects);
      && l.bitmapLba == start + 2 && l.inodeBitmapLba - l.bitmapLba == sects
      && l.inodeTableLba - l.inodeBitmapLba == 1 && l.dataLba - l.inodeTableLba == 608 && start + secCnt - l.dataLba == bitLen
    ensures var l := LayoutOf(start, sects);
      forall a: nat, g :: InRegion(start, l, bitLen, a, g) <==> start <= a < start + secCnt && g == RegionAt(start, l, a)
  {
    var l := LayoutOf(start, sects);
    assert l.dataLba + bitLen == start + secCnt;
    forall a: nat, g ensures InRegion(start, l, bitLen, a, g) <==> start <= a < start + secCnt && g == RegionAt(start, l, a) {
    }
  }

  // ---- the volume after a format

  function Formatted(base: Word, bitLen: nat, sects: nat, disk: seq<Sector>): Vol
    requires base < |disk|
  {
    Vol(base, bitLen, Fresh(bitLen, sects), disk[base := FileSystem.DotSector(0, 0)],
        seq(MAX_FILES, i => i == 0), map[0 := FileSystem.DirNode(base)], {0},
        InodeTable.Stored(BlankTable(), 0, 0, InodeTable.InodeBytes(DiskInode(0, FileSystem.DirNode(base)))))
  }

  function BlankTable(): (t: seq<Sector>)
    ensures |t| == InodeTable.TABLE_SECTS && forall i :: 0 <= i < |t| ==> t[i] == Zeros(SECTOR)
  {
    seq<Sector>(InodeTable.TABLE_SECTS, i => Zeros(SECTOR))
  }

  lemma BlankSlots(n: nat)
    requires n < MAX_FILES
    ensures InodeTable.Slot(BlankTable(), 0, n) == Zeros(InodeTable.INODE)
  {
    var s := InodeTable.Slot(BlankTable(), 0, n);
    forall i | 0 <= i < InodeTable.INODE ensures s[i] == 0 {
      assert s[i] == InodeTable.ByteAt(BlankTable(), 0, InodeTable.INODE * n + i);
    }
  }

  /** The fresh inode table holds the root directory's inode and nothing else, so
      every inode survives being closed. */
  lemma FormatPersistent(base: Word, bitLen: nat, sects: nat, disk: seq<Sector>)
    requires base < |disk|
    ensures TableOk(Formatted(base, bitLen, sects, disk)) && Persistent(Formatted(base, bitLen, sects, disk))
  {
    hide InodeTable.Slot, InodeTable.Stored, InodeTable.Decode, InodeTable.InodeBytes, BlankTable, FileSystem.DirNode, DiskInode, Fresh;
    var v := Formatted(base, bitLen, sects, disk);
    var root := DiskInode(0, FileSystem.DirNode(base));
    InodeTable.DecodeBytes(root);
    InodeTable.DecodeZeros();
    assert root.no == 0 by { RootNumber(FileSystem.DirNode(base)); }
    forall n: nat | n < MAX_FILES
      ensures SlotOf(v, n) == if n == 0 then root else InodeTable.Decode(Zeros(InodeTable.INODE))
    {
      BlankSlots(n);
      InodeTable.StoredSlot(BlankTable(), 0, 0, InodeTable.InodeBytes(root), n);
    }
  }

  lemma RootNumber(node: Node)
    ensures DiskInode(0, node).no == 0
  {
  }

  lemma FormattedRefs(disk: seq<Sector>, base: Word, r: nat)
    requires r < REFS
    ensures Ref(disk, FileSystem.DirNode(base), r) == if r == 0 then base else 0
  {
  }

  lemma FormattedOwned(base: Word, bitLen: nat, sects: nat, disk: seq<Sector>)
    requires 0 < base && base + bitLen <= |disk| < 0x1_0000_0000 && 8 <= bitLen <= BITS * sects
    ensures Owned(Formatted(base, bitLen, sects, disk), map[base as nat := Role(0, 0)])
  {
    hide Ref, FileSystem.DirNode;
    var v := Formatted(base, bitLen, sects, disk);
    forall r: nat | r < REFS ensures Ref(v.disk, v.nodes[0], r) == if r == 0 then base else 0 { FormattedRefs(v.disk, base, r); }
  }

  /** A fresh volume is consistent, with an empty root directory, exactly when it
      has at least eight blocks; with fewer the root's own block is marked free. */
  lemma FormatSound(base: Word, bitLen: nat, sects: nat, disk: seq<Sector>)
    requires 0 < base < |disk| && base + bitLen <= |disk| < 0x1_0000_0000 && bitLen <= BITS * sects
    ensures var v := Formatted(base, bitLen, sects, disk);
      && (Sound(v) <==> bitLen >= 8)
      && (bitLen >= 8 ==> Valid(v, map[base as nat := Role(0, 0)]) && FileSystem.Named(v))
      && FileSystem.EntriesIn(v, 0) == FileSystem.DotSlots(0, 0)
  {
    hide Owned, FileSystem.DotSector, FileSystem.DotSlots, Slots, DirShape, FileSystem.DirNode;
    var v := Formatted(base, bitLen, sects, disk);
    FileSystem.DirNodeShape(v.disk, base, 0, 0);
    assert v.nodes[0].sectors[0] == base by { NodeBase(base); }
    if bitLen >= 8 {
      FormattedOwned(base, bitLen, sects, disk);
      FormatNamed(v);
      FileSystem.ShapeDir(v.disk, v.nodes[0]);
      var owner: Owners := map[base as nat := Role(0, 0)];
      assert Shaped(v) && InodesOk(v);
      assert Valid(v, owner);
    } else {
      assert Ref(v.disk, v.nodes[0], 0) == base;
      assert Refers(v, 0, 0, base);
      forall o: Owners ensures !Valid(v, o) {
        if Owned(v, o) {
          OwnedExactly(v, o, base);
        }
      }
    }
  }

  lemma NodeBase(base: Word)
    ensures FileSystem.DirNode(base).sectors[0] == base
  {
  }

  lemma FormatNamed(v: Vol)
    requires v.nodes.Keys == {0} && FileSystem.EntriesIn(v, 0) == FileSystem.DotSlots(0, 0)
    ensures FileSystem.Named(v)
  {
    hide Slots;
  }
}
