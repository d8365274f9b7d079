/** fs/file.c: reading and writing a file through its block map. */
module Files {
  import opened Common
  import opened Sectors
  import opened Volume
  import opened Bitmaps
  import InodeTable

  function Add32(a: Word, b: Word): Word { (a + b) % U32 }
  function Sub32(a: Word, b: Word): Word { (a - b) % U32 }

  // ---- sizes

  function First(node: Node): nat { if node.sectors[0] == 0 then 1 else 0 }
  function Has(node: Node): nat { node.size / SECTOR + 1 }
  function Will(node: Node, count: nat): nat { (node.size + count) / SECTOR + 1 }

  /** How many blocks a write of `count` bytes takes: the first block of a file
      never written before, the new data blocks, and the table when they are the
      first to pass the direct ones. */
  function Need(node: Node, count: nat): nat {
    First(node) + (Will(node, count) - Has(node)) + if Has(node) <= DIRECT < Will(node, count) then 1 else 0
  }

  // ---- growing the block map

  /** The direct addresses once blocks [has, stop) have been put in place. */
  function Filled(sectors: seq<Word>, has: nat, stop: nat, all: seq<Word>): (r: seq<Word>)
    requires |sectors| == 13 && |all| == BLOCKS
    ensures |r| == 13
    ensures forall i :: 0 <= i < 13 ==> r[i] == if has <= i < stop && i < DIRECT then all[i] else sectors[i]
  {
    seq(13, i requires 0 <= i < 13 => if has <= i < stop && i < DIRECT then all[i] else sectors[i])
  }

  function Unplace(r: nat): int { if r < DIRECT then r else r - 1 }

  /** `got` holds the table in `got0` and, for has <= k < stop, block all[k] at its place. */
  predicate GotOk(got0: map<nat, nat>, got: map<nat, nat>, all: seq<Word>, has: nat, stop: nat) {
    && |all| == BLOCKS && stop <= BLOCKS
    && (forall a :: a in got0 ==> a in got && got[a] == got0[a])
    && (forall k :: has <= k < stop ==> all[k] in got && got[all[k]] == Place(k))
    && (forall a :: a in got && a !in got0 ==>
      has <= Unplace(got[a]) < stop && all[Unplace(got[a])] == a && got[a] == Place(Unplace(got[a])))
  }

  lemma GotStep(got0: map<nat, nat>, got: map<nat, nat>, all: seq<Word>, has: nat, k: nat, lba: Word)
    requires GotOk(got0, got, all, has, k) && has <= k < BLOCKS && lba !in got
    ensures GotOk(got0, got[lba := Place(k)], all[k := lba], has, k + 1)
  {
    var got2, all2 := got[lba := Place(k)], all[k := lba];
    forall i | has <= i < k + 1 ensures all2[i] in got2 && got2[all2[i]] == Place(i) {
      assert i < k ==> all2[i] == all[i];
    }
    forall a | a in got2 && a !in got0
      ensures has <= Unplace(got2[a]) < k + 1 && all2[Unplace(got2[a])] == a && got2[a] == Place(Unplace(got2[a]))
    {
      assert a != lba ==> Unplace(got[a]) < k;
    }
  }

  lemma TakenStep(v: Vol, used2: seq<bool>, got: map<nat, nat>, lba: nat, r: nat)
    requires Taken(v, used2, got) && v.base <= lba < v.base + v.cnt <= v.base + |v.used| && !used2[lba - v.base]
    ensures lba !in got && Taken(v, used2[lba - v.base := true], got[lba := r])
  {
    var c := lba - v.base;
    var got2, used3 := got[lba := r], used2[c := true];
    assert !v.used[c] && v.base + c !in got;
  }

  predicate Roomy(v: Vol) {
    && 0 < v.base && v.base + v.cnt <= |v.disk| < U32 && v.cnt <= |v.used|
    && forall b :: v.cnt <= b < |v.used| ==> v.used[b]
  }

  /** The allocation loop of file_write. In the first of the source's three
      situations every block is direct, in the third none is. */
  method AllocBlocks(p: Partition, n: nat, has: nat, will: nat, all0: seq<Word>, ghost v0: Vol, ghost got0: map<nat, nat>)
    returns (stop: nat, all: seq<Word>, ghost got: map<nat, nat>)
    requires Roomy(p.v) && n in p.v.nodes && has <= will <= BLOCKS && |all0| == BLOCKS
    requires forall k :: has <= k < DIRECT ==> p.v.nodes[n].sectors[k] == 0
    requires v0.base == p.v.base && v0.cnt == p.v.cnt && Taken(v0, p.v.used, got0)
    modifies p
    ensures p.owner == old(p.owner)
    ensures has <= stop <= will && |all| == BLOCKS
    ensures p.v == old(p.v).(used := p.v.used,
      nodes := old(p.v).nodes[n := old(p.v).nodes[n].(sectors := Filled(old(p.v).nodes[n].sectors, has, stop, all))])
    ensures Taken(v0, p.v.used, got) && GotOk(got0, got, all, has, stop)
    ensures forall k :: 0 <= k < BLOCKS && !(has <= k < stop) ==> all[k] == all0[k]
    ensures Free(p.v.used) == Free(old(p.v).used) - (stop - has)
    ensures stop < will ==> Free(p.v.used) == 0
  {
    hide Free, GotOk, Taken;
    all, got, stop := all0, got0, has;
    ghost var was := p.v;
    ghost var sectors := p.v.nodes[n].sectors;
    assert Filled(sectors, has, has, all) == sectors;
    assert p.v.nodes[n := p.v.nodes[n].(sectors := sectors)] == p.v.nodes;
    GotInit(got0, all0, has);
    while stop < will
      invariant has <= stop <= will && |all| == BLOCKS
      invariant Roomy(p.v) && p.owner == old(p.owner)
      invariant p.v == was.(used := p.v.used, nodes := was.nodes[n := was.nodes[n].(sectors := Filled(sectors, has, stop, all))])
      invariant Taken(v0, p.v.used, got) && GotOk(got0, got, all, has, stop)
      invariant forall k :: 0 <= k < BLOCKS && !(has <= k < stop) ==> all[k] == all0[k]
      invariant Free(p.v.used) == Free(was.used) - (stop - has)
    {
      ghost var used := p.v.used;
      var lba := p.AllocBlock();
      if lba == -1 {
        return;
      }
      TakenLength(v0, used, got);
      TakenStep(v0, used, got, lba, Place(stop));
      GotStep(got0, got, all, has, stop, lba);
      ghost var before := Filled(sectors, has, stop, all);
      if stop < DIRECT {
        assert p.v.nodes[n].sectors[stop] == 0;
        p.v := p.v.(nodes := p.v.nodes[n := p.v.nodes[n].(sectors := p.v.nodes[n].sectors[stop := lba])]);
      }
      all := all[stop := lba];
      got := got[lba := Place(stop)];
      stop := stop + 1;
      assert Filled(sectors, has, stop, all) == if stop <= DIRECT then before[stop - 1 := lba] else before;
    }
  }

  lemma GotInit(got0: map<nat, nat>, all: seq<Word>, has: nat)
    requires |all| == BLOCKS && has <= BLOCKS
    ensures GotOk(got0, got0, all, has, has)
  {
  }

  lemma TakenLength(v: Vol, used2: seq<bool>, got: map<nat, nat>)
    requires Taken(v, used2, got)
    ensures |used2| == |v.used|
  {
  }

  function GrownNode(node: Node, t: Word, all: seq<Word>, has: nat, will: nat): Node
    requires |all| == BLOCKS
  {
    node.(sectors := Filled(node.sectors[DIRECT := t], has, will, all))
  }

  function GrownDisk(disk: seq<Sector>, t: Word, all: seq<Word>): (d: seq<Sector>)
    requires |all| == BLOCKS && t < |disk|
    ensures |d| == |disk|
  {
    if t == 0 then disk else disk[t := TableSector(all[DIRECT..])]
  }

  /** The table a file that grows to `will` blocks ends up with is none, a new one or the one it has. */
  predicate TableFor(node: Node, has: nat, will: nat, t: Word, got0: map<nat, nat>) {
    if will <= DIRECT then t == 0 && got0 == map[]
    else if has <= DIRECT then t != 0 && got0 == map[t as nat := DIRECT]
    else t == node.sectors[DIRECT] && got0 == map[]
  }

  /** `all` lists the blocks of a file that grows from `has` blocks to `will`. */
  predicate Listed(disk: seq<Sector>, node: Node, all: seq<Word>, has: nat, will: nat) {
    && |all| == BLOCKS && 1 <= has <= will <= BLOCKS
    && HasBlocks(disk, node, has)
    && (forall k :: DIRECT <= k < has ==> all[k] == Blk(disk, node, k))
    && (forall k :: DIRECT <= k < BLOCKS && will <= k ==> all[k] == 0)
  }

  /** The first `has` blocks are where they were and hold what they held. */
  predicate BlocksKept(disk: seq<Sector>, node: Node, disk2: seq<Sector>, node2: Node, has: nat) {
    && has <= BLOCKS && |disk2| == |disk|
    && forall k :: 0 <= k < has ==>
      && Blk(disk2, node2, k) == Blk(disk, node, k)
      && (Blk(disk, node, k) < |disk| ==> disk2[Blk(disk, node, k)] == disk[Blk(disk, node, k)])
  }

  function GrownRef(node: Node, t: Word, all: seq<Word>, has: nat, will: nat, r: nat): Word
    requires |all| == BLOCKS && r < REFS
  {
    if r < DIRECT then (if has <= r < will then all[r] else node.sectors[r])
    else if r == DIRECT then t
    else if t == 0 then 0 else all[r - 1]
  }

  lemma GrownRefs(disk: seq<Sector>, node: Node, t: Word, all: seq<Word>, has: nat, will: nat, r: nat)
    requires |all| == BLOCKS && t < |disk| && r < REFS
    ensures Ref(GrownDisk(disk, t, all), GrownNode(node, t, all, has, will), r) == GrownRef(node, t, all, has, will, r)
  {
    hide WordAt;
    if r > DIRECT && t != 0 {
      var ws := all[DIRECT..];
      TableRoundTrip(ws);
      assert TableOf(TableSector(ws))[r - 13] == WordAt(TableSector(ws), 4 * (r - 13));
      assert ws[r - 13] == all[r - 1];
    }
  }

  /** The references gained by growing are exactly the blocks taken. */
  lemma GrowGained(v: Vol, owner: Owners, n: nat, all: seq<Word>, has: nat, will: nat, t: Word, got0: map<nat, nat>, got: map<nat, nat>)
    requires Owned(v, owner) && n in v.nodes && t < |v.disk|
    requires Listed(v.disk, v.nodes[n], all, has, will) && TableFor(v.nodes[n], has, will, t, got0)
    requires GotOk(got0, got, all, has, will)
    ensures Gained(v.disk, v.nodes[n], GrownDisk(v.disk, t, all), GrownNode(v.nodes[n], t, all, has, will), got)
  {
    hide Owned, WordAt, GrownDisk, GrownNode, Ref;
    var node := v.nodes[n];
    var disk2, node2 := GrownDisk(v.disk, t, all), GrownNode(node, t, all, has, will);
    forall r: nat | r < REFS
      ensures Ref(disk2, node2, r) == GrownRef(node, t, all, has, will, r)
      ensures || Ref(disk2, node2, r) == Ref(v.disk, node, r)
        || (Ref(v.disk, node, r) == 0 && Ref(disk2, node2, r) in got && got[Ref(disk2, node2, r)] == r)
    {
      GrownRefs(v.disk, node, t, all, has, will, r);
      GrownEach(v.disk, node, all, has, will, t, got0, got, r);
    }
  }

  lemma GrownEach(disk: seq<Sector>, node: Node, all: seq<Word>, has: nat, will: nat, t: Word, got0: map<nat, nat>, got: map<nat, nat>, r: nat)
    requires Listed(disk, node, all, has, will) && TableFor(node, has, will, t, got0)
    requires GotOk(got0, got, all, has, will) && r < REFS
    ensures var x, y := Ref(disk, node, r), GrownRef(node, t, all, has, will, r);
      y == x || (x == 0 && y in got && got[y] == r)
  {
    hide WordAt;
    if r < DIRECT {
      assert Blk(disk, node, r) == node.sectors[r];
      if has <= r < will { assert all[r] in got && got[all[r]] == Place(r); }
    } else if r > DIRECT {
      var k := r - 1;
      assert Place(k) == r;
      assert Blk(disk, node, k) == Ref(disk, node, r);
      if has <= k < will { assert all[k] in got && got[all[k]] == Place(k); }
    }
  }

  lemma GrownHas(v: Vol, owner: Owners, n: nat, all: seq<Word>, has: nat, will: nat, t: Word, got0: map<nat, nat>, got: map<nat, nat>)
    requires Owned(v, owner) && n in v.nodes && t < |v.disk|
    requires Listed(v.disk, v.nodes[n], all, has, will) && TableFor(v.nodes[n], has, will, t, got0)
    requires GotOk(got0, got, all, has, will) && 0 !in got
    ensures HasBlocks(GrownDisk(v.disk, t, all), GrownNode(v.nodes[n], t, all, has, will), will)
    ensures forall k :: has <= k < will ==> Blk(GrownDisk(v.disk, t, all), GrownNode(v.nodes[n], t, all, has, will), k) == all[k]
    ensures forall k :: 0 <= k < has ==> Blk(GrownDisk(v.disk, t, all), GrownNode(v.nodes[n], t, all, has, will), k) == Blk(v.disk, v.nodes[n], k)
  {
    hide Owned, WordAt, GrownDisk, GrownNode;
    var node := v.nodes[n];
    var disk2, node2 := GrownDisk(v.disk, t, all), GrownNode(node, t, all, has, will);
    forall k: nat | k < BLOCKS
      ensures Blk(disk2, node2, k) != 0 <==> k < will
      ensures has <= k < will ==> Blk(disk2, node2, k) == all[k]
      ensures k < has ==> Blk(disk2, node2, k) == Blk(v.disk, node, k)
    {
      GrownRefs(v.disk, node, t, all, has, will, Place(k));
      if has <= k < will { assert all[k] in got; }
      assert Blk(v.disk, node, k) != 0 <==> k < has;
      assert k < DIRECT ==> Blk(v.disk, node, k) == node.sectors[k];
    }
    GrownRefs(v.disk, node, t, all, has, will, DIRECT);
    assert node2.sectors[DIRECT] == t;
  }

  /** Growing writes to no block but the table. */
  lemma GrownKeeps(v: Vol, owner: Owners, n: nat, used2: seq<bool>, all: seq<Word>, has: nat, will: nat, t: Word, got0: map<nat, nat>, got: map<nat, nat>)
    requires Owned(v, owner) && n in v.nodes && t < |v.disk|
    requires Listed(v.disk, v.nodes[n], all, has, will) && TableFor(v.nodes[n], has, will, t, got0)
    requires GotOk(got0, got, all, has, will) && Taken(v, used2, got)
    ensures OthersSame(v, owner, GrownDisk(v.disk, t, all), n)
    ensures forall k :: 0 <= k < has ==> Blk(v.disk, v.nodes[n], k) < |v.disk| && Blk(v.disk, v.nodes[n], k) != t
  {
    hide Linked, Backed, WordAt;
    GotFresh(v, owner, used2, got);
    RefRange(v, owner, n, DIRECT);
    assert t != 0 ==> t in got || t == v.nodes[n].sectors[DIRECT];
    forall k | 0 <= k < has ensures Blk(v.disk, v.nodes[n], k) < |v.disk| && Blk(v.disk, v.nodes[n], k) != t {
      RefRange(v, owner, n, Place(k));
    }
  }

  /** The volume once inode `n` has grown. */
  function Grown(v: Vol, n: nat, used2: seq<bool>, all: seq<Word>, has: nat, will: nat, t: Word): Vol
    requires n in v.nodes && |all| == BLOCKS && t < |v.disk|
  {
    v.(used := used2, disk := GrownDisk(v.disk, t, all), nodes := v.nodes[n := GrownNode(v.nodes[n], t, all, has, will)])
  }

  lemma GrowOk(v: Vol, owner: Owners, n: nat, used2: seq<bool>, all: seq<Word>, has: nat, will: nat, t: Word, got0: map<nat, nat>, got: map<nat, nat>)
    requires Owned(v, owner) && n in v.nodes && t < |v.disk|
    requires Listed(v.disk, v.nodes[n], all, has, will) && TableFor(v.nodes[n], has, will, t, got0)
    requires GotOk(got0, got, all, has, will) && Taken(v, used2, got)
    ensures var w := Grown(v, n, used2, all, has, will, t);
      && Owned(w, owner + Roles(n, got)) && OthersSame(v, owner, w.disk, n)
      && HasBlocks(w.disk, w.nodes[n], will) && BlocksKept(v.disk, v.nodes[n], w.disk, w.nodes[n], has)
      && forall k :: has <= k < will ==> Blk(w.disk, w.nodes[n], k) == all[k]
  {
    hide Linked, Backed, Marked, GrownNode, Ref, Blk, GotOk, HasBlocks, Listed, TableFor, Gained, Roles;
    assert 0 !in got;
    GrowGained(v, owner, n, all, has, will, t, got0, got);
    GrownHas(v, owner, n, all, has, will, t, got0, got);
    GrownKeeps(v, owner, n, used2, all, has, will, t, got0, got);
    ListedBounds(v.disk, v.nodes[n], all, has, will);
    AttachInv(v, owner, n, used2, GrownDisk(v.disk, t, all), GrownNode(v.nodes[n], t, all, has, will), got);
  }

  lemma ListedBounds(disk: seq<Sector>, node: Node, all: seq<Word>, has: nat, will: nat)
    requires Listed(disk, node, all, has, will)
    ensures 1 <= has <= will <= BLOCKS == |all|
  {
  }

  /** A file keeps its bytes when its blocks are kept. */
  lemma ContentsKept(disk: seq<Sector>, node: Node, disk2: seq<Sector>, node2: Node, has: nat)
    requires BlocksKept(disk, node, disk2, node2, has) && node2.size == node.size && node.size / SECTOR + 1 <= has
    ensures Contents(disk2, node2) == Contents(disk, node)
  {
    hide Blk;
  }

  // ---- writing the bytes

  /** Sector `s` is what the write puts at the end of the file: the bytes already there, then `chunk`. */
  predicate Extends(was: Sector, off: nat, chunk: seq<Byte>, s: Sector) {
    && off + |chunk| <= SECTOR
    && (forall i :: 0 <= i < off ==> s[i] == was[i])
    && (forall i :: 0 <= i < |chunk| ==> s[off + i] == chunk[i])
  }

  lemma SameSectors(disk: seq<Sector>, node: Node, node2: Node)
    requires node2.sectors == node.sectors
    ensures forall r: nat :: r < REFS ==> Ref(disk, node2, r) == Ref(disk, node, r)
    ensures forall k: nat :: k < BLOCKS ==> Blk(disk, node2, k) == Blk(disk, node, k)
  {
  }

  lemma WriteStep(v: Vol, owner: Owners, n: nat, chunk: seq<Byte>, s: Sector, m: nat)
    requires Owned(v, owner) && n in v.nodes && m <= BLOCKS
    requires HasBlocks(v.disk, v.nodes[n], m) && v.nodes[n].size / SECTOR < m
    requires var a := Blk(v.disk, v.nodes[n], v.nodes[n].size / SECTOR);
      a < |v.disk| && Extends(v.disk[a], v.nodes[n].size % SECTOR, chunk, s)
    ensures var a := Blk(v.disk, v.nodes[n], v.nodes[n].size / SECTOR);
      var disk2, node2 := v.disk[a := s], v.nodes[n].(size := v.nodes[n].size + |chunk|);
      && Owned(v.(disk := disk2, nodes := v.nodes[n := node2]), owner) && OthersSame(v, owner, disk2, n)
      && HasBlocks(disk2, node2, m) && (forall k: nat :: k < BLOCKS ==> Blk(disk2, node2, k) == Blk(v.disk, v.nodes[n], k))
      && Contents(disk2, node2) == Contents(v.disk, v.nodes[n]) + chunk
  {
    hide Linked, Backed, Marked, Ref;
    var node := v.nodes[n];
    var q := node.size / SECTOR;
    var a := Blk(v.disk, node, q);
    var disk2, node2 := v.disk[a := s], node.(size := node.size + |chunk|);
    assert a != 0;
    DataWriteRefs(v, owner, n, q, s);
    SameSectors(disk2, node, node2);
    RewriteInv(v, owner, n, disk2, node2);
    forall k: nat | k < BLOCKS ensures Blk(disk2, node2, k) == Blk(v.disk, node, k) {
    }
    WriteContents(v, owner, n, chunk, s, m);
  }

  lemma WriteContents(v: Vol, owner: Owners, n: nat, chunk: seq<Byte>, s: Sector, m: nat)
    requires Owned(v, owner) && n in v.nodes && m <= BLOCKS
    requires HasBlocks(v.disk, v.nodes[n], m) && v.nodes[n].size / SECTOR < m
    requires var a := Blk(v.disk, v.nodes[n], v.nodes[n].size / SECTOR);
      a < |v.disk| && Extends(v.disk[a], v.nodes[n].size % SECTOR, chunk, s)
    requires var a := Blk(v.disk, v.nodes[n], v.nodes[n].size / SECTOR);
      var disk2, node2 := v.disk[a := s], v.nodes[n].(size := v.nodes[n].size + |chunk|);
      forall k: nat :: k < BLOCKS ==> Blk(disk2, node2, k) == Blk(v.disk, v.nodes[n], k)
    ensures var a := Blk(v.disk, v.nodes[n], v.nodes[n].size / SECTOR);
      var disk2, node2 := v.disk[a := s], v.nodes[n].(size := v.nodes[n].size + |chunk|);
      Contents(disk2, node2) == Contents(v.disk, v.nodes[n]) + chunk
  {
    hide Linked, Backed, Marked, Ref, HasBlocks;
    var node := v.nodes[n];
    var q, off := node.size / SECTOR, node.size % SECTOR;
    var a := Blk(v.disk, node, q);
    var disk2, node2 := v.disk[a := s], node.(size := node.size + |chunk|);
    forall i: nat | i < node2.size
      ensures ByteAt(disk2, node2, i) == (Contents(v.disk, node) + chunk)[i]
    {
      if i >= node.size {
        assert i / SECTOR == q && i % SECTOR == off + (i - node.size);
        assert s[off + (i - node.size)] == chunk[i - node.size];
      } else if i / SECTOR == q {
        assert i % SECTOR < off;
      } else {
        OtherBlock(v, owner, n, i / SECTOR, q, m);
      }
    }
  }

  lemma OtherBlock(v: Vol, owner: Owners, n: nat, k: nat, q: nat, m: nat)
    requires Owned(v, owner) && n in v.nodes && HasBlocks(v.disk, v.nodes[n], m) && k < BLOCKS && q < BLOCKS
    requires k < m && q < m && k != q
    ensures Blk(v.disk, v.nodes[n], k) != Blk(v.disk, v.nodes[n], q)
  {
    hide Backed, Marked, Ref;
    RefRange(v, owner, n, Place(k));
    RefRange(v, owner, n, Place(q));
  }

  class OpenFile {
    var pos: Word
    const ino: nat

    constructor (ino: nat)
      ensures pos == 0 && this.ino == ino
    {
      this.ino, pos := ino, 0;
    }
  }

  /** Lines 437-464 of file_write: the first sector is read before it is
      patched, the later ones start from zeros. */
  method WriteData(p: Partition, f: OpenFile, all: seq<Word>, buf: seq<Byte>, m: nat)
    requires Owned(p.v, p.owner) && f.ino in p.v.nodes && |all| == BLOCKS && m <= BLOCKS
    requires HasBlocks(p.v.disk, p.v.nodes[f.ino], m)
    requires p.v.nodes[f.ino].size < MAX_SIZE && (p.v.nodes[f.ino].size + |buf|) / SECTOR < m
    requires forall k :: p.v.nodes[f.ino].size / SECTOR <= k < m ==> all[k] == Blk(p.v.disk, p.v.nodes[f.ino], k)
    modifies p, f
    ensures p.owner == old(p.owner) && Owned(p.v, p.owner) && ChangedAt(old(p.v), p.v, f.ino)
    ensures OthersSame(old(p.v), p.owner, p.v.disk, f.ino)
    ensures p.v.used == old(p.v).used && p.v.itable == old(p.v).itable && HasBlocks(p.v.disk, p.v.nodes[f.ino], m)
    ensures p.v.nodes[f.ino] == old(p.v).nodes[f.ino].(size := old(p.v).nodes[f.ino].size + |buf|)
    ensures Contents(p.v.disk, p.v.nodes[f.ino]) == Contents(old(p.v).disk, old(p.v).nodes[f.ino]) + buf
    ensures f.pos == Sub32(p.v.nodes[f.ino].size, 1)
  {
    hide Writing, Add32, Sub32, Extends, WriteOne, OthersSame, Contents, Owned, HasBlocks, Blk, Patch, ChangedAt;
    var n := f.ino;
    ghost var v0 := p.v;
    ghost var owner := p.owner;
    var start := p.v.nodes[n].size;
    var first := true;
    var written := 0;
    f.pos := Sub32(start, 1);
    WritingStart(v0, owner, n, all, buf, m);
    while written < |buf|
      invariant 0 <= written <= |buf|
      invariant p.owner == owner && n in p.v.nodes && p.v.nodes[n].size == start + written
      invariant Writing(v0, owner, n, all, buf, written, m, p.v)
      invariant !first && written < |buf| ==> (start + written) % SECTOR == 0
      invariant f.pos == Sub32(start + written, 1)
    {
      var size := p.v.nodes[n].size;
      var secLba := all[size / SECTOR];
      var off := size % SECTOR;
      var left := SECTOR - off;
      var chunkSize := if |buf| - written < left then |buf| - written else left;
      ChunkFacts(start, written, |buf|, chunkSize, m);
      WritingBlock(v0, owner, n, all, buf, written, m, p.v);
      var ioBuf := if first then p.v.disk[secLba] else Zeros(SECTOR);
      first := false;
      PatchExtends(p.v.disk[secLba], ioBuf, off, buf[written..written + chunkSize]);
      ioBuf := Patch(ioBuf, off, buf[written..written + chunkSize]);
      WritingStep(v0, owner, n, all, buf, written, chunkSize, m, p.v, ioBuf);
      p.v := WriteOne(p.v, n, secLba, ioBuf, size + chunkSize);
      f.pos := Add32(f.pos, chunkSize);
      written := written + chunkSize;
    }
    WritingDone(v0, owner, n, all, buf, m, p.v);
  }

  /** One sector written and the size of the file moved on. */
  function WriteOne(v: Vol, n: nat, a: nat, s: Sector, size: nat): (w: Vol)
    requires n in v.nodes && a < |v.disk|
    ensures n in w.nodes && w.nodes[n].size == size
  {
    v.(disk := v.disk[a := s], nodes := v.nodes[n := v.nodes[n].(size := size)])
  }

  /** `v` is `v0` with the first `written` bytes of `buf` appended to file `n`. */
  predicate Writing(v0: Vol, owner: Owners, n: nat, all: seq<Word>, buf: seq<Byte>, written: nat, m: nat, v: Vol) {
    && written <= |buf| && n in v0.nodes && m <= BLOCKS == |all| && Owned(v, owner)
    && v == v0.(disk := v.disk, nodes := v0.nodes[n := v0.nodes[n].(size := v0.nodes[n].size + written)])
    && OthersSame(v0, owner, v.disk, n) && HasBlocks(v.disk, v.nodes[n], m)
    && (forall k :: v0.nodes[n].size / SECTOR <= k < m ==> all[k] == Blk(v.disk, v.nodes[n], k))
    && Contents(v.disk, v.nodes[n]) == Contents(v0.disk, v0.nodes[n]) + buf[..written]
  }

  lemma WritingStart(v: Vol, owner: Owners, n: nat, all: seq<Word>, buf: seq<Byte>, m: nat)
    requires n in v.nodes && m <= BLOCKS == |all| && Owned(v, owner) && HasBlocks(v.disk, v.nodes[n], m)
    requires forall k :: v.nodes[n].size / SECTOR <= k < m ==> all[k] == Blk(v.disk, v.nodes[n], k)
    ensures Writing(v, owner, n, all, buf, 0, m, v)
  {
    hide Owned, HasBlocks, Blk;
    assert v.nodes[n := v.nodes[n].(size := v.nodes[n].size)] == v.nodes;
  }

  lemma WritingBlock(v0: Vol, owner: Owners, n: nat, all: seq<Word>, buf: seq<Byte>, written: nat, m: nat, v: Vol)
    requires Writing(v0, owner, n, all, buf, written, m, v) && n in v.nodes && v.nodes[n].size / SECTOR < m
    ensures var k := v.nodes[n].size / SECTOR; all[k] < |v.disk| && all[k] == Blk(v.disk, v.nodes[n], k)
  {
    hide Owned, HasBlocks, Blk, OthersSame, Contents;
    BlockThere(v, owner, n, v.nodes[n].size / SECTOR, m);
  }

  lemma WritingStep(v0: Vol, owner: Owners, n: nat, all: seq<Word>, buf: seq<Byte>, written: nat, chunkSize: nat, m: nat, v: Vol, s: Sector)
    requires Writing(v0, owner, n, all, buf, written, m, v) && written + chunkSize <= |buf|
    requires n in v.nodes && v.nodes[n].size == v0.nodes[n].size + written && v.nodes[n].size / SECTOR < m
    requires var a := all[v.nodes[n].size / SECTOR];
      a < |v.disk| && Extends(v.disk[a], v.nodes[n].size % SECTOR, buf[written..written + chunkSize], s)
    ensures Writing(v0, owner, n, all, buf, written + chunkSize, m,
      WriteOne(v, n, all[v.nodes[n].size / SECTOR], s, v.nodes[n].size + chunkSize))
  {
    hide Owned, HasBlocks, Blk, Extends, Contents;
    var chunk := buf[written..written + chunkSize];
    var size := v.nodes[n].size;
    var a := all[size / SECTOR];
    WritingBlock(v0, owner, n, all, buf, written, m, v);
    WriteStep(v, owner, n, chunk, s, m);
    assert buf[..written + chunkSize] == buf[..written] + chunk;
    var w := WriteOne(v, n, a, s, size + chunkSize);
    assert w.nodes == v0.nodes[n := v0.nodes[n].(size := size + chunkSize)];
    assert Contents(w.disk, w.nodes[n]) == Contents(v0.disk, v0.nodes[n]) + buf[..written] + chunk;
  }

  lemma WritingDone(v0: Vol, owner: Owners, n: nat, all: seq<Word>, buf: seq<Byte>, m: nat, v: Vol)
    requires Writing(v0, owner, n, all, buf, |buf|, m, v)
    ensures Owned(v, owner) && ChangedAt(v0, v, n) && OthersSame(v0, owner, v.disk, n)
    ensures v.used == v0.used && v.itable == v0.itable && HasBlocks(v.disk, v.nodes[n], m)
    ensures v.nodes[n] == v0.nodes[n].(size := v0.nodes[n].size + |buf|)
    ensures Contents(v.disk, v.nodes[n]) == Contents(v0.disk, v0.nodes[n]) + buf
  {
    hide Owned, HasBlocks, Blk, OthersSame, Contents;
    assert buf[..|buf|] == buf;
  }

  lemma ChunkFacts(start: nat, written: nat, total: nat, chunkSize: nat, m: nat)
    requires written < total && start < MAX_SIZE && m <= BLOCKS && (start + total) / SECTOR < m
    requires var left := SECTOR - (start + written) % SECTOR;
      chunkSize == if total - written < left then total - written else left
    ensures 0 < chunkSize && written + chunkSize <= total
    ensures start / SECTOR <= (start + written) / SECTOR < m
    ensures written + chunkSize < total ==> (start + written + chunkSize) % SECTOR == 0
    ensures start + written + chunkSize < U32
    ensures Add32(Sub32(start + written, 1), chunkSize) == Sub32(start + written + chunkSize, 1)
  {
  }

  lemma PatchExtends(was: Sector, buffer: Sector, off: nat, chunk: seq<Byte>)
    requires off + |chunk| <= SECTOR && (off == 0 || buffer == was)
    ensures Extends(was, off, chunk, Patch(buffer, off, chunk))
  {
  }

  lemma BlockThere(v: Vol, owner: Owners, n: nat, k: nat, m: nat)
    requires Owned(v, owner) && n in v.nodes && HasBlocks(v.disk, v.nodes[n], m) && k < m <= BLOCKS
    ensures 0 < Blk(v.disk, v.nodes[n], k) < |v.disk|
  {
    hide Backed, Ref;
    RefRange(v, owner, n, Place(k));
  }

  // ---- the three situations of file_write

  lemma OwnedRoomy(v: Vol, owner: Owners)
    requires Owned(v, owner)
    ensures Roomy(v)
  {
    hide Linked, Backed;
  }

  lemma FirstOk(v: Vol, owner: Owners, n: nat, w: Vol, lba: nat)
    requires Valid(v, owner) && n in v.nodes && n !in v.dirs && v.nodes[n].sectors[0] == 0 && Took(v, w, lba) && lba < U32
    ensures var node2 := v.nodes[n].(sectors := v.nodes[n].sectors[0 := lba]);
      var u := w.(nodes := v.nodes[n := node2]);
      && Valid(u, owner[lba := Role(n, 0)]) && Others(v, u, n)
  {
    hide Linked, Backed, Marked, WordAt, Contents, Slots, Others, Shaped, InodesOk;
    var node := v.nodes[n];
    var node2 := node.(sectors := node.sectors[0 := lba]);
    var u := w.(nodes := v.nodes[n := node2]);
    assert FileShape(v.disk, node) by { ShapeAt(v, n); }
    var got := map[lba := 0];
    assert Taken(v, v.used, map[]);
    TakenStep(v, v.used, map[], lba, 0);
    assert map[][lba := 0] == got;
    forall r: nat | r < REFS ensures Ref(v.disk, node2, r) == if r == 0 then lba else Ref(v.disk, node, r) {
    }
    assert Gained(v.disk, node, v.disk, node2, got);
    AttachInv(v, owner, n, w.used, v.disk, node2, got);
    assert owner + Roles(n, got) == owner[lba := Role(n, 0)];
    assert u == v.(used := w.used, disk := v.disk, nodes := v.nodes[n := node2]);
    forall k: nat | k < BLOCKS ensures Blk(v.disk, node2, k) != 0 <==> k < 1 {
      assert Blk(v.disk, node, k) == 0;
    }
    OneChanged(v, owner, n, u, owner[lba := Role(n, 0)]);
  }

  lemma ShapeAt(v: Vol, n: nat)
    requires Shaped(v) && n in v.nodes
    ensures ShapeOf(v.disk, v.nodes[n], n in v.dirs)
  {
  }

  /** Lines 281-296: a file written for the first time gets one block. */
  method FirstBlock(p: Partition, n: nat) returns (ok: bool)
    requires p.Ok() && n in p.v.nodes && n !in p.v.dirs && p.v.nodes[n].sectors[0] == 0
    modifies p
    ensures ok <==> Free(old(p.v).used) > 0
    ensures !ok ==> p.v == old(p.v) && p.owner == old(p.owner)
    ensures ok ==> p.Ok() && Others(old(p.v), p.v, n) && ChangedAt(old(p.v), p.v, n) && p.v.disk == old(p.v).disk
    ensures ok ==> p.v.nodes[n].sectors[0] != 0 && p.v.nodes[n].size == old(p.v).nodes[n].size
    ensures ok ==> Free(p.v.used) == Free(old(p.v).used) - 1 && |p.v.used| == |old(p.v).used|
  {
    hide Linked, Backed, Marked, Shaped, Others, Free, InodesOk;
    ghost var v0, owner0 := p.v, p.owner;
    OwnedRoomy(v0, owner0);
    var lba := p.AllocBlock();
    if lba == -1 {
      return false;
    }
    RootTaken(v0, owner0);
    assert lba - p.v.base != 0;
    FirstOk(v0, owner0, n, p.v, lba);
    p.v := p.v.(nodes := p.v.nodes[n := p.v.nodes[n].(sectors := p.v.nodes[n].sectors[0 := lba])]);
    p.owner := p.owner[lba := Role(n, 0)];
    return true;
  }

  predicate OwnersKept(owner: Owners, owner2: Owners, n: nat) {
    forall a :: a in owner && owner[a].ino != n ==> a in owner2 && owner2[a] == owner[a]
  }

  /** File `n` has grown from `has` blocks to `will`, and `all` lists those the write will use. */
  ghost predicate GrewOk(v: Vol, owner: Owners, w: Vol, owner2: Owners, n: nat, all: seq<Word>, has: nat, will: nat) {
    && ChangedAt(v, w, n) && OthersSame(v, owner, w.disk, n) && Owned(w, owner2) && OwnersKept(owner, owner2, n)
    && w.nodes[n].size == v.nodes[n].size && w.nodes[n].sectors[0] == v.nodes[n].sectors[0]
    && HasBlocks(w.disk, w.nodes[n], will) && BlocksKept(v.disk, v.nodes[n], w.disk, w.nodes[n], has)
    && 1 <= has <= will <= BLOCKS == |all|
    && forall k :: has - 1 <= k < will ==> all[k] == Blk(w.disk, w.nodes[n], k)
  }

  /** Out of blocks half-way: the bytes are untouched, and the volume stays
      consistent only if there was no free block to begin with. */
  ghost predicate GrowFailed(v: Vol, w: Vol, n: nat) {
    && ChangedAt(v, w, n) && w.disk == v.disk
    && Contents(w.disk, w.nodes[n]) == Contents(v.disk, v.nodes[n])
    && (Free(v.used) == 0 ==> w == v)
    && (Free(v.used) > 0 ==> !Sound(w))
    && Free(w.used) == 0 && |w.used| == |v.used|
    && w.nodes[n].size == v.nodes[n].size && w.nodes[n].sectors[0] == v.nodes[n].sectors[0]
    && (w.nodes[n] == v.nodes[n] <==> Free(v.used) == 0 || Has(v.nodes[n]) > DIRECT)
  }

  lemma GrewSame(v: Vol, owner: Owners, n: nat, all: seq<Word>, has: nat)
    requires Owned(v, owner) && n in v.nodes && HasBlocks(v.disk, v.nodes[n], has) && 1 <= has <= BLOCKS == |all|
    requires all[has - 1] == Blk(v.disk, v.nodes[n], has - 1)
    ensures GrewOk(v, owner, v, owner, n, all, has, has)
  {
    hide Owned, HasBlocks, Blk;
    assert v.nodes[n := v.nodes[n]] == v.nodes;
  }

  lemma GrewGrown(v: Vol, owner: Owners, n: nat, used2: seq<bool>, all: seq<Word>, has: nat, will: nat, t: Word, got0: map<nat, nat>, got: map<nat, nat>)
    requires Owned(v, owner) && n in v.nodes && t < |v.disk|
    requires Listed(v.disk, v.nodes[n], all, has, will) && TableFor(v.nodes[n], has, will, t, got0)
    requires GotOk(got0, got, all, has, will) && Taken(v, used2, got)
    requires all[has - 1] == Blk(v.disk, v.nodes[n], has - 1)
    ensures GrewOk(v, owner, Grown(v, n, used2, all, has, will, t), owner + Roles(n, got), n, all, has, will)
  {
    hide Owned, HasBlocks, Listed, TableFor, GotOk, Taken, Roles, Blk;
    ListedBounds(v.disk, v.nodes[n], all, has, will);
    GotFresh(v, owner, used2, got);
    assert OwnersKept(owner, owner + Roles(n, got), n) by { RolesKept(owner, n, got); }
    GrowOk(v, owner, n, used2, all, has, will, t, got0, got);
  }

  lemma RolesKept(owner: Owners, n: nat, got: map<nat, nat>)
    requires got.Keys !! owner.Keys
    ensures OwnersKept(owner, owner + Roles(n, got), n)
  {
  }

  lemma NotSoundShape(w: Vol, n: nat)
    requires n in w.nodes && n !in w.dirs && !FileShape(w.disk, w.nodes[n])
    ensures !Sound(w)
  {
    hide FileShape, Owned;
  }

  lemma FailedDirect(v: Vol, owner: Owners, w: Vol, n: nat, t: Word, all: seq<Word>, has: nat, stop: nat)
    requires Valid(v, owner) && n in v.nodes && n !in v.dirs && v.nodes[n].sectors[0] != 0 && |all| == BLOCKS
    requires Held(v.nodes[n]) == has <= DIRECT && has <= stop
    requires ChangedAt(v, w, n) && w.disk == v.disk && w.nodes[n] == GrownNode(v.nodes[n], t, all, has, stop)
    requires t != 0 || (has < stop && has < DIRECT && all[has] != 0)
    ensures Contents(w.disk, w.nodes[n]) == Contents(v.disk, v.nodes[n]) && !Sound(w)
    ensures w.nodes[n] != v.nodes[n] && w.nodes[n].size == v.nodes[n].size && w.nodes[n].sectors[0] == v.nodes[n].sectors[0]
  {
    hide Owned, WordAt, Shaped, Contents;
    var node, node2 := v.nodes[n], w.nodes[n];
    forall k: nat | k < has ensures Blk(w.disk, node2, k) == Blk(v.disk, node, k) {
      assert Blk(v.disk, node, k) == node.sectors[k];
    }
    ContentsKept(v.disk, node, w.disk, node2, has);
    assert !FileShape(w.disk, node2) by {
      if has < DIRECT {
        assert Blk(w.disk, node2, has) == node2.sectors[has];
      }
    }
    NotSoundShape(w, n);
    assert FileShape(v.disk, node) by { ShapeAt(v, n); }
  }

  lemma NothingTaken(v: Vol, used2: seq<bool>, got: map<nat, nat>, all: seq<Word>, has: nat)
    requires Taken(v, used2, got) && GotOk(map[], got, all, has, has)
    ensures used2 == v.used
  {
    assert got == map[];
  }

  /** What growing by `count` bytes comes to; both ways out are decided by the free blocks. */
  ghost predicate GrowResult(v: Vol, owner: Owners, w: Vol, owner2: Owners, n: nat, count: nat, ok: bool, all: seq<Word>)
    requires n in v.nodes
  {
    && (ok <==> Need(v.nodes[n], count) <= Free(v.used))
    && (ok ==> GrewOk(v, owner, w, owner2, n, all, Has(v.nodes[n]), Will(v.nodes[n], count)))
    && (ok ==> Free(w.used) == Free(v.used) - Need(v.nodes[n], count))
    && (!ok ==> GrowFailed(v, w, n) && owner2 == owner)
  }

  /** A file that has been written to, and a write that fits. */
  ghost predicate CanGrow(v: Vol, owner: Owners, n: nat, count: nat) {
    && Valid(v, owner) && n in v.nodes && n !in v.dirs && v.nodes[n].sectors[0] != 0
    && Will(v.nodes[n], count) <= BLOCKS
  }

  lemma GrowFacts(v: Vol, owner: Owners, n: nat, count: nat)
    requires CanGrow(v, owner, n, count)
    ensures var node := v.nodes[n];
      && 1 <= Has(node) <= Will(node, count) <= BLOCKS && HasBlocks(v.disk, node, Has(node)) && First(node) == 0
      && (forall k :: 0 <= k < DIRECT ==> Blk(v.disk, node, k) == node.sectors[k])
      && (forall k :: Has(node) <= k < DIRECT ==> node.sectors[k] == 0)
      && (node.sectors[DIRECT] != 0 <==> Has(node) > DIRECT) && node.sectors[DIRECT] < |v.disk|
      && Owned(v, owner) && Roomy(v)
      && Taken(v, v.used, map[])
  {
    hide Linked, Backed, Shaped, InodesOk, WordAt;
    ShapeAt(v, n);
    var node := v.nodes[n];
    RefRange(v, owner, n, DIRECT);
    forall k | Has(node) <= k < DIRECT ensures node.sectors[k] == 0 {
      assert Blk(v.disk, node, k) == node.sectors[k];
    }
  }

  /** Situation 1, lines 332-360: the direct blocks suffice. */
  method GrowDirect(p: Partition, n: nat, count: nat) returns (ok: bool, all: seq<Word>)
    requires CanGrow(p.v, p.owner, n, count)
    requires Has(p.v.nodes[n]) < Will(p.v.nodes[n], count) <= DIRECT
    modifies p
    ensures GrowResult(old(p.v), old(p.owner), p.v, p.owner, n, count, ok, all)
  {
    hide Owned, Valid, Sound, Free, WordAt, Contents, Listed, TableFor, GotOk, Taken, Filled, HasBlocks, Blk, GrewOk, Roles, Has, Will;
    ghost var v0, owner0 := p.v, p.owner;
    var node := p.v.nodes[n];
    var has, will := Has(node), Will(node, count);
    GrowFacts(v0, owner0, n, count);
    all := seq(BLOCKS, i => 0);
    assert node.sectors[has - 1] == Blk(v0.disk, node, has - 1);
    all := all[has - 1 := node.sectors[has - 1]];
    ghost var all0 := all;
    var stop; ghost var got;
    stop, all, got := AllocBlocks(p, n, has, will, all, v0, map[]);
    ok := stop == will;
    if ok {
      assert Listed(v0.disk, node, all, has, will) by { ListedDirect(v0.disk, node, all, has, will); }
      assert TableFor(node, has, will, 0, map[]) by { TableForNone(node, has, will); }
      GrewGrown(v0, owner0, n, p.v.used, all, has, will, 0, map[], got);
      assert node.sectors[DIRECT := 0] == node.sectors;
      assert p.v == Grown(v0, n, p.v.used, all, has, will, 0);
      p.owner := owner0 + Roles(n, got);
    } else {
      DirectFailed(v0, owner0, p.v, n, all, has, stop, got, count);
    }
  }

  lemma ListedDirect(disk: seq<Sector>, node: Node, all: seq<Word>, has: nat, will: nat)
    requires |all| == BLOCKS && 1 <= has <= will <= DIRECT && HasBlocks(disk, node, has)
    requires forall k :: DIRECT <= k < BLOCKS ==> all[k] == 0
    ensures Listed(disk, node, all, has, will)
  {
    hide HasBlocks, Blk;
  }

  lemma TableForNone(node: Node, has: nat, will: nat)
    requires will <= DIRECT
    ensures TableFor(node, has, will, 0, map[])
  {
  }

  lemma DirectFailed(v: Vol, owner: Owners, w: Vol, n: nat, all: seq<Word>, has: nat, stop: nat, got: map<nat, nat>, count: nat)
    requires CanGrow(v, owner, n, count) && has == Has(v.nodes[n]) && has <= stop < Will(v.nodes[n], count) <= DIRECT && |all| == BLOCKS
    requires w == v.(used := w.used, nodes := v.nodes[n := v.nodes[n].(sectors := Filled(v.nodes[n].sectors, has, stop, all))])
    requires Taken(v, w.used, got) && GotOk(map[], got, all, has, stop)
    requires Free(w.used) == Free(v.used) - (stop - has) && Free(w.used) == 0
    ensures GrowFailed(v, w, n)
  {
    hide Owned, Free, WordAt, Contents, HasBlocks, Blk, Sound, Shaped, InodesOk, Rooted;
    GrowFacts(v, owner, n, count);
    TakenLength(v, w.used, got);
    var node := v.nodes[n];
    assert node.sectors[DIRECT := 0] == node.sectors;
    if stop == has {
      NothingTaken(v, w.used, got, all, has);
      assert Filled(node.sectors, has, has, all) == node.sectors;
      assert v.nodes[n := node] == v.nodes;
    } else {
      assert all[has] in got && all[has] != 0;
      FailedDirect(v, owner, w, n, 0, all, has, stop);
    }
  }

  lemma TableBlk(disk: seq<Sector>, node: Node, all: seq<Word>, k: nat)
    requires DIRECT <= k < BLOCKS == |all| && 0 < node.sectors[DIRECT] < |disk|
    requires all[DIRECT..] == TableOf(disk[node.sectors[DIRECT]])
    ensures all[k] == Blk(disk, node, k)
  {
    assert all[DIRECT..][k - DIRECT] == all[k];
  }

  /** Situation 2, lines 361-408: the first blocks beyond the direct ones, and the table for them. */
  method GrowAcross(p: Partition, n: nat, count: nat) returns (ok: bool, all: seq<Word>)
    requires CanGrow(p.v, p.owner, n, count)
    requires Has(p.v.nodes[n]) <= DIRECT < Will(p.v.nodes[n], count)
    modifies p
    ensures GrowResult(old(p.v), old(p.owner), p.v, p.owner, n, count, ok, all)
  {
    hide Owned, Valid, Sound, Free, WordAt, Contents, Listed, TableFor, GotOk, Taken, Filled, HasBlocks, Blk, GrewOk, Roles, Has, Will;
    ghost var v0, owner0 := p.v, p.owner;
    var node := p.v.nodes[n];
    var has, will := Has(node), Will(node, count);
    GrowFacts(v0, owner0, n, count);
    all := seq(BLOCKS, i => 0);
    assert node.sectors[has - 1] == Blk(v0.disk, node, has - 1);
    all := all[has - 1 := node.sectors[has - 1]];
    var t := p.AllocBlock();
    if t == -1 {
      assert v0.nodes[n := v0.nodes[n]] == v0.nodes;
      return false, all;
    }
    assert node.sectors[DIRECT] == 0;
    ghost var got0: map<nat, nat> := map[t as nat := DIRECT];
    TakenStep(v0, v0.used, map[], t, DIRECT);
    assert map[][t as nat := DIRECT] == got0;
    p.v := p.v.(nodes := p.v.nodes[n := node.(sectors := node.sectors[DIRECT := t])]);
    var stop; ghost var got;
    stop, all, got := AllocBlocks(p, n, has, will, all, v0, got0);
    ok := stop == will;
    assert p.v.nodes == v0.nodes[n := GrownNode(node, t, all, has, stop)];
    if ok {
      assert Listed(v0.disk, node, all, has, will) by { ListedAcross(v0.disk, node, all, has, will); }
      assert TableFor(node, has, will, t, got0) by { TableForNew(node, has, will, t, got0); }
      GrewGrown(v0, owner0, n, p.v.used, all, has, will, t, got0, got);
      p.v := p.v.(disk := p.v.disk[t := TableSector(all[DIRECT..])]);
      assert p.v == Grown(v0, n, p.v.used, all, has, will, t);
      p.owner := owner0 + Roles(n, got);
    } else {
      TakenLength(v0, p.v.used, got);
      AcrossFailed(v0, owner0, p.v, n, t, all, has, stop, count);
    }
  }

  lemma ListedAcross(disk: seq<Sector>, node: Node, all: seq<Word>, has: nat, will: nat)
    requires |all| == BLOCKS && 1 <= has <= DIRECT < will <= BLOCKS && HasBlocks(disk, node, has)
    requires forall k :: will <= k < BLOCKS ==> all[k] == 0
    ensures Listed(disk, node, all, has, will)
  {
    hide HasBlocks, Blk;
  }

  lemma TableForNew(node: Node, has: nat, will: nat, t: Word, got0: map<nat, nat>)
    requires has <= DIRECT < will && t != 0 && got0 == map[t as nat := DIRECT]
    ensures TableFor(node, has, will, t, got0)
  {
  }

  lemma AcrossFailed(v: Vol, owner: Owners, w: Vol, n: nat, t: Word, all: seq<Word>, has: nat, stop: nat, count: nat)
    requires CanGrow(v, owner, n, count) && has == Has(v.nodes[n]) <= DIRECT && has <= stop && |all| == BLOCKS && t != 0
    requires w == v.(used := w.used, nodes := v.nodes[n := GrownNode(v.nodes[n], t, all, has, stop)])
    requires Free(v.used) > 0 && Free(w.used) == 0 && |w.used| == |v.used|
    ensures GrowFailed(v, w, n)
  {
    hide Owned, Free, WordAt, Contents, HasBlocks, Blk, Sound, Shaped, InodesOk, Rooted;
    GrowFacts(v, owner, n, count);
    FailedDirect(v, owner, w, n, t, all, has, stop);
  }

  /** Situation 3, lines 409-434: the table is there already. */
  method GrowIndirect(p: Partition, n: nat, count: nat) returns (ok: bool, all: seq<Word>)
    requires CanGrow(p.v, p.owner, n, count)
    requires DIRECT < Has(p.v.nodes[n]) < Will(p.v.nodes[n], count)
    modifies p
    ensures GrowResult(old(p.v), old(p.owner), p.v, p.owner, n, count, ok, all)
  {
    hide Owned, Valid, Sound, Free, WordAt, Contents, Listed, TableFor, GotOk, Taken, HasBlocks, Blk, GrewOk, Roles, Has, Will;
    ghost var v0, owner0 := p.v, p.owner;
    var node := p.v.nodes[n];
    var has, will := Has(node), Will(node, count);
    GrowFacts(v0, owner0, n, count);
    assert node.sectors[DIRECT] != 0;
    var t := node.sectors[DIRECT];
    all := seq(DIRECT, i => 0) + TableOf(p.v.disk[t]);
    assert all[DIRECT..] == TableOf(p.v.disk[t]);
    forall k | DIRECT <= k < BLOCKS ensures all[k] == Blk(v0.disk, node, k) { TableBlk(v0.disk, node, all, k); }
    var stop; ghost var got;
    stop, all, got := AllocBlocks(p, n, has, will, all, v0, map[]);
    ok := stop == will;
    assert Filled(node.sectors, has, stop, all) == node.sectors;
    assert v0.nodes[n := node] == v0.nodes;
    if ok {
      assert Listed(v0.disk, node, all, has, will) by { ListedIndirect(v0.disk, node, all, has, will); }
      assert TableFor(node, has, will, t, map[]) by { TableForOld(node, has, will); }
      GrewGrown(v0, owner0, n, p.v.used, all, has, will, t, map[], got);
      p.v := p.v.(disk := p.v.disk[t := TableSector(all[DIRECT..])]);
      assert node.sectors[DIRECT := t] == node.sectors;
      assert Filled(node.sectors[DIRECT := t], has, will, all) == node.sectors;
      assert p.v == Grown(v0, n, p.v.used, all, has, will, t);
      p.owner := owner0 + Roles(n, got);
    } else {
      IndirectFailed(v0, owner0, p.v, n, all, has, stop, got, count);
    }
  }

  lemma ListedIndirect(disk: seq<Sector>, node: Node, all: seq<Word>, has: nat, will: nat)
    requires |all| == BLOCKS && DIRECT < has <= will <= BLOCKS && HasBlocks(disk, node, has)
    requires forall k :: DIRECT <= k < BLOCKS && !(has <= k < will) ==> all[k] == Blk(disk, node, k)
    ensures Listed(disk, node, all, has, will)
  {
    hide Blk;
  }

  lemma TableForOld(node: Node, has: nat, will: nat)
    requires DIRECT < has <= will
    ensures TableFor(node, has, will, node.sectors[DIRECT], map[])
  {
  }

  lemma IndirectFailed(v: Vol, owner: Owners, w: Vol, n: nat, all: seq<Word>, has: nat, stop: nat, got: map<nat, nat>, count: nat)
    requires CanGrow(v, owner, n, count) && DIRECT < Has(v.nodes[n]) == has <= stop && |all| == BLOCKS
    requires w == v.(used := w.used)
    requires Taken(v, w.used, got) && GotOk(map[], got, all, has, stop)
    requires Free(w.used) == Free(v.used) - (stop - has) && Free(w.used) == 0
    ensures GrowFailed(v, w, n)
  {
    hide Owned, Free, WordAt, Contents, HasBlocks, Blk, Sound, Shaped, InodesOk, Rooted;
    GrowFacts(v, owner, n, count);
    TakenLength(v, w.used, got);
    assert v.nodes[n := v.nodes[n]] == v.nodes;
    if stop == has {
      NothingTaken(v, w.used, got, all, has);
    } else {
      var a := all[has];
      assert a in got;
      assert v.base + (a - v.base) in got;
      NotSoundLeak(v, owner, w, a);
    }
  }

  /** Lines 298-435: the blocks the write will use are found or taken. */
  method Grow(p: Partition, n: nat, count: nat) returns (ok: bool, all: seq<Word>)
    requires CanGrow(p.v, p.owner, n, count)
    modifies p
    ensures GrowResult(old(p.v), old(p.owner), p.v, p.owner, n, count, ok, all)
  {
    hide Owned, Valid, Sound, Free, WordAt, Contents, Taken, HasBlocks, Blk, GrewOk, Has, Will;
    var node := p.v.nodes[n];
    var has, will := Has(node), Will(node, count);
    GrowFacts(p.v, p.owner, n, count);
    if will == has {
      all := seq(BLOCKS, i => 0);
      if has <= DIRECT {
        assert node.sectors[has - 1] == Blk(p.v.disk, node, has - 1);
        all := all[has - 1 := node.sectors[has - 1]];
      } else {
        assert node.sectors[DIRECT] != 0;
        all := all[..DIRECT] + TableOf(p.v.disk[node.sectors[DIRECT]]);
        assert all[DIRECT..] == TableOf(p.v.disk[node.sectors[DIRECT]]);
        TableBlk(p.v.disk, node, all, has - 1);
      }
      GrewSame(p.v, p.owner, n, all, has);
      ok := true;
    } else if will <= DIRECT {
      ok, all := GrowDirect(p, n, count);
    } else if has <= DIRECT {
      ok, all := GrowAcross(p, n, count);
    } else {
      ok, all := GrowIndirect(p, n, count);
    }
  }

  datatype WriteResult = TooBig | NoBlock | Asserted | Wrote(count: nat)

  /** How a write ends, decided by the size of the file, the byte count and the
      free blocks alone. A write that would fill the last of the 71680 bytes
      passes the size test and then trips the assertion on the block count. */
  function Outcome(node: Node, free: nat, count: nat): WriteResult {
    if node.size + count > MAX_SIZE then TooBig
    else if free < First(node) then NoBlock
    else if node.size + count == MAX_SIZE then Asserted
    else if free < Need(node, count) then NoBlock
    else Wrote(count)
  }

  /** The block positions up to the end of what is written at which the file has no block. */
  function Absent(disk: seq<Sector>, node: Node, count: nat): set<nat> {
    set k: nat | k < BLOCKS && k <= (node.size + count) / SECTOR && Blk(disk, node, k) == 0
  }

  /** One block for each of those, and one for the table if one of them needs it and it is not there. */
  ghost predicate EnoughFree(v: Vol, n: nat, count: nat)
    requires n in v.nodes
  {
    var node := v.nodes[n];
    |Absent(v.disk, node, count)| + (if node.sectors[DIRECT] == 0 && (node.size + count) / SECTOR >= DIRECT then 1 else 0) <= Free(v.used)
  }

  lemma NeedCounted(v: Vol, owner: Owners, n: nat, count: nat)
    requires Valid(v, owner) && n in v.nodes && n !in v.dirs && v.nodes[n].size + count < MAX_SIZE
    ensures EnoughFree(v, n, count) <==> Need(v.nodes[n], count) <= Free(v.used)
  {
    hide Owned, InodesOk, Rooted, Shaped, Free, Blk;
    ShapeAt(v, n);
    var node := v.nodes[n];
    var held := Held(node);
    assert forall k: nat :: k < BLOCKS ==> (Blk(v.disk, node, k) != 0 <==> k < held);
    assert (node.size + count) / SECTOR < BLOCKS;
    IntervalCard(Absent(v.disk, node, count), held, Will(node, count));
    assert Blk(v.disk, node, DIRECT) != 0 <==> DIRECT < held;
  }

  /** A buffer lies below the kernel, so its length does not overflow the size test. */
  const USER_SPACE: nat := 0xC000_0000

  /** A write that found no block, with what it left behind. The blocks it took
      are all that were free, and nothing is stored: the volume is consistent as
      long as the inode stays in memory iff at most the first block of a new file
      was free, and once it is closed and read back iff none was. The table agrees
      with memory iff none was free, the blocks were indirect, or it does not have
      the inode. */
  ghost predicate OutOfBlocks(v: Vol, w: Vol, n: nat) {
    && ChangedAt(v, w, n) && w.disk == v.disk
    && (Free(v.used) == 0 ==> w == v)
    && (Sound(w) <==> Free(v.used) <= First(v.nodes[n]))
    && (w.nodes[n] == v.nodes[n] <==> Free(v.used) == 0 || Has(v.nodes[n]) > DIRECT)
    && (TableOk(v) ==> (TableOk(w) <==> Free(v.used) == 0 || Has(v.nodes[n]) > DIRECT || !Tabled(v, n)))
    && (Persistent(v) ==> (Persistent(w) <==> Free(v.used) == 0 || Has(v.nodes[n]) > DIRECT))
    && (Reopens(v, n) ==> (Sound(ReadBack(w, n)) <==> Free(v.used) == 0))
  }

  /** The file as the write found it, or with the first block it was then given. */
  predicate FirstDone(v: Vol, u: Vol, n: nat) {
    && ChangedAt(v, u, n) && u.disk == v.disk && u.nodes[n].size == v.nodes[n].size && |u.used| == |v.used|
    && u.nodes[n].sectors[0] != 0 && Free(u.used) == Free(v.used) - First(v.nodes[n])
    && (v.nodes[n].sectors[0] != 0 ==> u == v)
  }

  lemma WriteFailed(v: Vol, owner: Owners, u: Vol, owner2: Owners, w: Vol, n: nat)
    requires Valid(v, owner) && n in v.nodes && n !in v.dirs && Valid(u, owner2)
    requires FirstDone(v, u, n) && GrowFailed(u, w, n)
    ensures OutOfBlocks(v, w, n)
  {
    hide Owned, Shaped, InodesOk, Rooted, Contents, Free, Sound, TableOk, Persistent, Reopens, Tabled, ReadBack;
    assert w.nodes == v.nodes[n := w.nodes[n]];
    NewFileHas(v, owner, n);
    assert w.nodes[n] == v.nodes[n] <==> Free(v.used) == 0 || Has(v.nodes[n]) > DIRECT;
    if Free(u.used) == 0 { SoundNow(u, owner2); }
    InTable(v, owner, n);
    Unsaved(v, w, n);
    if Reopens(v, n) { ReadBackOf(v, owner, w, n); }
  }

  lemma NewFileHas(v: Vol, owner: Owners, n: nat)
    requires Valid(v, owner) && n in v.nodes && n !in v.dirs
    ensures v.nodes[n].sectors[0] == 0 ==> v.nodes[n].size == 0 && Has(v.nodes[n]) == 1
  {
    hide Owned, HasBlocks;
    ShapeAt(v, n);
  }

  lemma FullBefore(v: Vol, owner: Owners, n: nat)
    requires Valid(v, owner) && n in v.nodes && n !in v.dirs && Free(v.used) == 0
    ensures OutOfBlocks(v, v, n)
  {
    hide Owned, Shaped, InodesOk, Rooted, Free, Sound, TableOk, Persistent, Tabled, SlotOf, DiskInode;
    assert v.nodes[n := v.nodes[n]] == v.nodes;
    SoundNow(v, owner);
    if Reopens(v, n) { ReadBackOf(v, owner, v, n); }
  }

  /** Read back from its slot the inode is what it was before the write, and what was free is lost. */
  lemma ReadBackOf(v: Vol, owner: Owners, w: Vol, n: nat)
    requires Valid(v, owner) && Reopens(v, n) && n !in v.dirs && ChangedAt(v, w, n) && w.disk == v.disk
    requires Free(w.used) == 0 && |w.used| == |v.used| && (Free(v.used) == 0 ==> w == v)
    ensures Sound(ReadBack(w, n)) <==> Free(v.used) == 0
  {
    hide Owned, Shaped, InodesOk, Rooted, Free, Sound, InodeTable.Slot, InodeTable.Decode;
    ShapeSize(v, n);
    var x := ReadBack(w, n);
    assert x.nodes == v.nodes;
    assert x == v.(used := w.used);
    if Free(v.used) == 0 {
      SoundNow(v, owner);
    } else {
      LeakedAll(v, owner, x);
    }
  }

  lemma ShapeSize(v: Vol, n: nat)
    requires Shaped(v) && n in v.nodes && n !in v.dirs
    ensures v.nodes[n].size < MAX_SIZE
  {
    hide HasBlocks;
  }

  lemma LeakedAll(v: Vol, owner: Owners, w: Vol)
    requires Owned(v, owner) && Free(v.used) > 0 && Free(w.used) == 0 && |w.used| == |v.used| && w == v.(used := w.used)
    ensures !Sound(w)
  {
    hide Linked, Backed, Marked, Sound;
    FreeZero(v.used);
    FreeZero(w.used);
    var b :| 0 <= b < |v.used| && !v.used[b];
    MarkedLength(v, owner);
    NotSoundLeak(v, owner, w, v.base + b);
  }

  lemma MarkedLength(v: Vol, owner: Owners)
    requires Owned(v, owner)
    ensures v.cnt <= |v.used|
  {
    hide Linked, Backed;
  }

  /** One free block and 600 bytes for a file never written: the volume is
      consistent while the file is open, and the block is lost once it is closed. */
  lemma FirstBlockLost(v: Vol, owner: Owners, w: Vol, n: nat)
    requires Valid(v, owner) && TableOk(v) && Reopens(v, n) && n !in v.dirs && v.nodes[n].sectors[0] == 0
    requires Free(v.used) == 1 && OutOfBlocks(v, w, n)
    ensures Outcome(v.nodes[n], Free(v.used), 600) == NoBlock
    ensures Sound(w) && !TableOk(w) && !Sound(ReadBack(w, n))
  {
    hide Owned, Shaped, InodesOk, Rooted, Free, Sound, TableOk, Reopens, SlotOf, ReadBack;
    NewFileHas(v, owner, n);
    InTable(v, owner, n);
    NumberDecides(v, n);
  }

  method FileWrite(p: Partition, f: OpenFile, buf: seq<Byte>) returns (r: WriteResult)
    requires p.Ok() && f.ino in p.v.nodes && f.ino !in p.v.dirs && |buf| <= USER_SPACE
    modifies p, f
    ensures r == Outcome(old(p.v).nodes[f.ino], Free(old(p.v).used), |buf|)
    ensures r == Wrote(|buf|) <==> old(p.v).nodes[f.ino].size + |buf| < 71680 && EnoughFree(old(p.v), f.ino, |buf|)
    ensures r == TooBig <==> old(p.v).nodes[f.ino].size + |buf| > 71680
    ensures r == Asserted ==> old(p.v).nodes[f.ino].size + |buf| == 71680
    ensures f.ino in p.v.nodes && f.ino !in p.v.dirs
    ensures r.Wrote? ==> p.Ok() && Others(old(p.v), p.v, f.ino) && Saved(old(p.v), p.v, {f.ino})
    ensures r.Wrote? ==> Contents(p.v.disk, p.v.nodes[f.ino]) == Contents(old(p.v).disk, old(p.v).nodes[f.ino]) + buf
    ensures r.Wrote? ==> Free(p.v.used) == Free(old(p.v).used) - Need(old(p.v).nodes[f.ino], |buf|)
    ensures r.Wrote? ==> f.pos == Sub32(p.v.nodes[f.ino].size, 1)
    ensures !r.Wrote? ==> Contents(p.v.disk, p.v.nodes[f.ino]) == Contents(old(p.v).disk, old(p.v).nodes[f.ino])
    ensures !r.Wrote? ==> p.v.disk == old(p.v).disk && f.pos == old(f.pos)
    ensures r.TooBig? ==> p.v == old(p.v) && p.Ok()
    ensures r.NoBlock? ==> OutOfBlocks(old(p.v), p.v, f.ino)
    ensures r.NoBlock? && Free(old(p.v).used) <= First(old(p.v).nodes[f.ino]) ==> p.Ok() && Others(old(p.v), p.v, f.ino)
  {
    hide Owned, Shaped, InodesOk, Rooted, Others, WordAt, Contents, HasBlocks, Blk, Free, Sound, OthersSame, BlocksKept, Saved, Stamped, SameBut, EnoughFree;
    var n := f.ino;
    if p.v.nodes[n].size + |buf| < MAX_SIZE { NeedCounted(p.v, p.owner, n, |buf|); }
    var node := p.v.nodes[n];
    if node.size + |buf| > MAX_SIZE {
      return TooBig;
    }
    ghost var v0, owner0 := p.v, p.owner;
    OthersSelf(v0, n);
    if node.sectors[0] == 0 {
      var ok := FirstBlock(p, n);
      if !ok {
        FullBefore(v0, owner0, n);
        return NoBlock;
      }
      FirstContents(v0, p.v, owner0, n);
    }
    ghost var v1, owner1 := p.v, p.owner;
    if Will(p.v.nodes[n], |buf|) > BLOCKS {
      return Asserted;
    }
    WillFits(node, |buf|);
    var ok, all := Grow(p, n, |buf|);
    if !ok {
      WriteFailed(v0, owner0, v1, owner1, p.v, n);
      return NoBlock;
    }
    ghost var v2, owner2 := p.v, p.owner;
    ContentsKept(v1.disk, v1.nodes[n], v2.disk, v2.nodes[n], Has(v1.nodes[n]));
    GrownSize(v1, owner1, n, |buf|);
    WriteData(p, f, all, buf, Will(node, |buf|));
    WriteDone(v1, owner1, n, v2, owner2, p.v, all, |buf|);
    OthersJoin(v0, v1, p.v, n);
    ghost var v3 := p.v;
    p.SyncInode(n);
    OthersStored(v0, v3, n, p.v.itable);
    OthersSameBut(v0, p.v, n);
    StampedSince(v0, v3, p.v, n);
    SavedOne(v0, p.v, n);
    return Wrote(|buf|);
  }

  lemma OthersSelf(v: Vol, n: nat)
    ensures Others(v, v, n)
  {
    hide Contents, Slots;
  }

  lemma OthersJoin(v: Vol, w: Vol, x: Vol, n: nat)
    requires Others(v, w, n) && Others(w, x, n)
    ensures Others(v, x, n)
  {
    hide Contents, Slots;
  }

  lemma FirstContents(v: Vol, w: Vol, owner: Owners, n: nat)
    requires Valid(v, owner) && ChangedAt(v, w, n) && n !in v.dirs
    requires v.nodes[n].sectors[0] == 0 && w.nodes[n].size == v.nodes[n].size
    ensures Contents(w.disk, w.nodes[n]) == Contents(v.disk, v.nodes[n]) && v.nodes[n].size == 0
  {
    hide Owned, HasBlocks;
    ShapeAt(v, n);
  }

  lemma WillFits(node: Node, count: nat)
    requires node.size + count <= MAX_SIZE
    ensures Will(node, count) <= BLOCKS <==> node.size + count < MAX_SIZE
  {
  }

  lemma GrownSize(v: Vol, owner: Owners, n: nat, count: nat)
    requires CanGrow(v, owner, n, count)
    ensures v.nodes[n].size < MAX_SIZE && v.nodes[n].size / SECTOR == Has(v.nodes[n]) - 1
  {
    hide Owned;
    ShapeAt(v, n);
  }

  lemma WriteDone(v: Vol, owner: Owners, n: nat, w: Vol, owner2: Owners, x: Vol, all: seq<Word>, count: nat)
    requires CanGrow(v, owner, n, count) && Owned(x, owner2)
    requires GrewOk(v, owner, w, owner2, n, all, Has(v.nodes[n]), Will(v.nodes[n], count))
    requires ChangedAt(w, x, n) && OthersSame(w, owner2, x.disk, n) && HasBlocks(x.disk, x.nodes[n], Will(v.nodes[n], count))
    requires x.nodes[n] == w.nodes[n].(size := w.nodes[n].size + count)
    ensures Valid(x, owner2) && Others(v, x, n)
  {
    hide Owned, Shaped, InodesOk, Others, HasBlocks, Blk;
    assert OthersSame(v, owner, x.disk, n);
    assert w.nodes[n := x.nodes[n]] == v.nodes[n := x.nodes[n]];
    OneChanged(v, owner, n, x, owner2);
  }

  // ---- file_read

  datatype ReadResult = Eof | Halted | Read(data: seq<Byte>)

  /** The block index from which on the assertion in file_read stops the kernel, one short of the last block. */
  const READ_LIMIT: nat := 139

  predicate PastLimit(end: nat) { end / SECTOR >= READ_LIMIT }

  /** What a read of `count` bytes at `pos` comes to. */
  function ReadOutcome(data: seq<Byte>, pos: nat, count: nat): ReadResult {
    if pos > |data| then Halted
    else
      var size := if pos + count > |data| then |data| - pos else count;
      if pos + count > |data| && size == 0 then Eof
      else if PastLimit(pos + size) then Halted
      else Read(data[pos..pos + size])
  }

  function Least(a: nat, b: nat): nat { if a < b then a else b }

  /** A read ends at the end of the file or of the request, whichever comes
      first, and gives the bytes between; nothing is left iff the position is at
      the end; it halts past the end and where its last block is past the limit. */
  ghost predicate ReadMeans(data: seq<Byte>, pos: nat, count: nat, r: ReadResult) {
    match r
    case Eof => pos == |data| && count > 0
    case Halted =>
      pos > |data| || ((pos < |data| || count == 0) && (pos + Least(count, |data| - pos)) / SECTOR >= READ_LIMIT)
    case Read(d) =>
      && pos <= |data| && |d| == Least(count, |data| - pos) && (pos + |d|) / SECTOR < READ_LIMIT
      && forall i :: 0 <= i < |d| ==> d[i] == data[pos + i]
  }

  lemma ReadIs(data: seq<Byte>, pos: nat, count: nat)
    ensures ReadMeans(data, pos, count, ReadOutcome(data, pos, count))
  {
  }

  /** Reading on gives what one longer read gives, up to the end of the file. */
  lemma ReadOn(data: seq<Byte>, pos: nat, a: nat, b: nat)
    requires ReadOutcome(data, pos, a).Read?
    ensures var x := ReadOutcome(data, pos, a).data;
      match ReadOutcome(data, pos + |x|, b)
      case Read(y) => ReadOutcome(data, pos, a + b) == Read(x + y)
      case Eof => ReadOutcome(data, pos, a + b) == if x == [] then Eof else Read(x)
      case Halted => ReadOutcome(data, pos, a + b) == Halted
  {
    hide PastLimit;
    var x := ReadOutcome(data, pos, a).data;
    var end := pos + Least(a + b, |data| - pos);
    Slices(data, pos, pos + |x|, end);
  }

  /** Bytes appended to a file are read back as they were written, exactly when
      the file stays below the block limit of a read. */
  lemma AppendedReadsBack(data: seq<Byte>, buf: seq<Byte>)
    requires buf != []
    ensures ReadOutcome(data + buf, |data|, |buf|) == Read(buf) <==> |data| + |buf| < READ_LIMIT * SECTOR
  {
    assert (data + buf)[|data|..|data| + |buf|] == buf;
  }

  /** A position inside the file or at its end, or the one that a write of no
      bytes to an empty file leaves: 0 - 1 in 32 bits. */
  predicate PosOk(pos: Word, size: nat) { pos <= size || pos == U32 - 1 }

  lemma WritePosOk(size: nat)
    requires size < MAX_SIZE
    ensures PosOk(Sub32(size, 1), size)
  {
  }

  /** Lines 508-558: the addresses of blocks start to end are gathered. */
  method Collect(disk: seq<Sector>, node: Node, start: nat, end: nat) returns (all: seq<Word>)
    requires start <= end < BLOCKS && node.sectors[DIRECT] < |disk|
    requires node.sectors[DIRECT] != 0 <==> Blk(disk, node, DIRECT) != 0
    requires end >= DIRECT ==> Blk(disk, node, end) != 0
    ensures |all| == BLOCKS && forall k :: start <= k <= end ==> all[k] == Blk(disk, node, k)
  {
    hide WordAt, TableOf;
    all := seq(BLOCKS, i => 0);
    if end < DIRECT {
      var k := start;
      while k <= end
        invariant start <= k <= end + 1 && |all| == BLOCKS
        invariant forall i :: start <= i < k ==> all[i] == node.sectors[i]
      {
        all := all[k := node.sectors[k]];
        k := k + 1;
      }
    } else {
      var k := start;
      while k < DIRECT
        invariant start <= k && |all| == BLOCKS && (start <= DIRECT ==> k <= DIRECT)
        invariant forall i :: start <= i < k && i < DIRECT ==> all[i] == node.sectors[i]
      {
        all := all[k := node.sectors[k]];
        k := k + 1;
      }
      assert node.sectors[DIRECT] != 0;
      all := all[..DIRECT] + TableOf(disk[node.sectors[DIRECT]]);
      assert all[DIRECT..] == TableOf(disk[node.sectors[DIRECT]]);
      forall i | DIRECT <= i < BLOCKS ensures all[i] == Blk(disk, node, i) { TableBlk(disk, node, all, i); }
    }
  }

  method FileRead(p: Partition, f: OpenFile, count: nat) returns (r: ReadResult)
    requires p.Ok() && f.ino in p.v.nodes && f.ino !in p.v.dirs && count <= USER_SPACE
    requires PosOk(f.pos, p.v.nodes[f.ino].size)
    modifies f
    ensures r == ReadOutcome(Contents(p.v.disk, p.v.nodes[f.ino]), old(f.pos), count)
    ensures ReadMeans(Contents(p.v.disk, p.v.nodes[f.ino]), old(f.pos), count, r)
    ensures f.pos == if r.Read? then old(f.pos) + |r.data| else old(f.pos)
  {
    hide Owned, Shaped, InodesOk, Rooted, WordAt, Contents, HasBlocks, Blk, Add32, Sub32;
    var node := p.v.nodes[f.ino];
    ghost var pos0 := f.pos;
    ghost var data := Contents(p.v.disk, node);
    var size := count;
    ShapeAt(p.v, f.ino);
    ReadIs(data, pos0, count);
    ReadSizes(f.pos, count, node.size);
    if Add32(f.pos, count) > node.size {
      size := Sub32(node.size, f.pos);
      if size == 0 {
        return Eof;
      }
    }
    var start, end := f.pos / SECTOR, Add32(f.pos, size) / SECTOR;
    if !(start < READ_LIMIT && end < READ_LIMIT) {
      return Halted;
    }
    ReadBlocks(p.v, p.owner, f.ino, f.pos + size);
    var all := Collect(p.v.disk, node, start, end);
    var buf := ReadData(p, f, all, size);
    return Read(buf);
  }

  /** Lines 560-579: whole sectors are read and the part asked for is copied out. */
  method ReadData(p: Partition, f: OpenFile, all: seq<Word>, size: nat) returns (buf: seq<Byte>)
    requires p.Ok() && f.ino in p.v.nodes && f.ino !in p.v.dirs && |all| == BLOCKS
    requires f.pos + size <= p.v.nodes[f.ino].size < MAX_SIZE
    requires forall k :: f.pos / SECTOR <= k <= (f.pos + size) / SECTOR && k < BLOCKS ==> all[k] == Blk(p.v.disk, p.v.nodes[f.ino], k)
    modifies f
    ensures f.pos == old(f.pos) + size
    ensures buf == Contents(p.v.disk, p.v.nodes[f.ino])[old(f.pos)..old(f.pos) + size]
  {
    hide Owned, Shaped, InodesOk, Rooted, Contents, Blk, Add32;
    ghost var pos0 := f.pos;
    ghost var data := Contents(p.v.disk, p.v.nodes[f.ino]);
    buf := [];
    var sizeLeft := size;
    while |buf| < size
      invariant |buf| <= size && f.pos == pos0 + |buf| && sizeLeft == size - |buf| && pos0 + size <= |data|
      invariant buf == data[pos0..pos0 + |buf|]
    {
      var secLba := all[f.pos / SECTOR];
      var off := f.pos % SECTOR;
      var left := SECTOR - off;
      var chunkSize := if sizeLeft < left then sizeLeft else left;
      ReadStep(pos0, f.pos, size, chunkSize);
      ReadChunk(p.v, p.owner, f.ino, f.pos, chunkSize);
      var ioBuf := p.v.disk[secLba];
      Slices(data, pos0, f.pos, f.pos + chunkSize);
      buf := buf + ioBuf[off..off + chunkSize];
      f.pos := Add32(f.pos, chunkSize);
      sizeLeft := sizeLeft - chunkSize;
    }
  }

  lemma ReadStep(pos0: nat, pos: nat, size: nat, chunkSize: nat)
    requires pos0 <= pos <= pos + chunkSize <= pos0 + size < MAX_SIZE
    ensures Add32(pos, chunkSize) == pos + chunkSize
    ensures pos0 / SECTOR <= pos / SECTOR <= (pos0 + size) / SECTOR
  {
  }

  lemma ReadSizes(pos: Word, count: nat, size: nat)
    requires PosOk(pos, size) && count <= USER_SPACE && size < MAX_SIZE
    ensures pos <= size ==> Add32(pos, count) == pos + count && Sub32(size, pos) == size - pos
    ensures forall n: nat :: pos + n <= size ==> Add32(pos, n) == pos + n
    ensures pos > size ==> pos / SECTOR >= READ_LIMIT && Sub32(size, pos) != 0
  {
  }

  lemma ReadBlocks(v: Vol, owner: Owners, n: nat, end: nat)
    requires Valid(v, owner) && n in v.nodes && n !in v.dirs && end <= v.nodes[n].size
    ensures end / SECTOR < BLOCKS && v.nodes[n].sectors[DIRECT] < |v.disk|
    ensures v.nodes[n].sectors[DIRECT] != 0 <==> Blk(v.disk, v.nodes[n], DIRECT) != 0
    ensures end / SECTOR >= DIRECT ==> Blk(v.disk, v.nodes[n], end / SECTOR) != 0
  {
    hide Linked, Backed, InodesOk, WordAt, Shaped;
    ShapeAt(v, n);
    RefRange(v, owner, n, DIRECT);
  }

  /** The bytes of one chunk of a read are those of the file. */
  lemma ReadChunk(v: Vol, owner: Owners, n: nat, pos: nat, c: nat)
    requires Valid(v, owner) && n in v.nodes && n !in v.dirs
    requires 0 < c && pos + c <= v.nodes[n].size && pos % SECTOR + c <= SECTOR
    ensures pos / SECTOR < BLOCKS && Blk(v.disk, v.nodes[n], pos / SECTOR) < |v.disk|
    ensures v.disk[Blk(v.disk, v.nodes[n], pos / SECTOR)][pos % SECTOR..pos % SECTOR + c] == Contents(v.disk, v.nodes[n])[pos..pos + c]
  {
    hide Owned, InodesOk, Shaped, Blk;
    var node, k, off := v.nodes[n], pos / SECTOR, pos % SECTOR;
    ShapeAt(v, n);
    BlockThere(v, owner, n, k, Held(node));
    var s := v.disk[Blk(v.disk, node, k)];
    var t, u := s[off..off + c], Contents(v.disk, node)[pos..pos + c];
    forall i | 0 <= i < |t| ensures t[i] == u[i] {
      assert u[i] == ByteAt(v.disk, node, pos + i);
      assert (pos + i) / SECTOR == k && (pos + i) % SECTOR == off + i;
    }
  }

  datatype Whence = SeekSet | SeekCur | SeekEnd

  function Signed32(x: int): int { if x % U32 < 0x8000_0000 then x % U32 else x % U32 - U32 }

  /** sys_lseek: the new position is inside the file, or nothing changes. */
  method Seek(f: OpenFile, size: nat, offset: int, whence: Whence) returns (r: int)
    requires size < MAX_SIZE && PosOk(f.pos, size) && -0x8000_0000 <= offset < 0x8000_0000
    modifies f
    ensures PosOk(f.pos, size)
    ensures var target := offset + match whence case SeekSet => 0 case SeekCur => Signed32(old(f.pos)) case SeekEnd => size;
      if 0 <= target < size then r == f.pos == target else r == -1 && f.pos == old(f.pos)
  {
    var base := match whence case SeekSet => 0 case SeekCur => Signed32(f.pos) case SeekEnd => size;
    var newPos := Signed32(base + offset);
    if newPos < 0 || newPos > size - 1 {
      return -1;
    }
    f.pos := newPos;
    return f.pos;
  }
}
