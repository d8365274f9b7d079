/** kernel/memory.c, heap: sys_malloc and sys_free. Requests up to 1024 bytes
    come from one-page arenas cut into blocks of seven sizes, with one free list
    per size; larger requests take whole pages behind an arena header. */
module Heap {
  import opened Common
  import opened Bitmaps
  import opened Paging

  const ARENA_SIZE := 12          // sizeof(struct arena)
  const DESC_CNT := 7

  /** struct arena. A small arena knows its size class and its free blocks, a
      large one its pages. */
  datatype Arena = Small(idx: nat, cnt: nat) | Large(cnt: nat) {
    function Pages(): nat { if Small? then 1 else cnt }
  }

  /** Arenas by address, and the free list of each size class, front first. */
  datatype Store = Store(arenas: map<nat, Arena>, free: seq<seq<nat>>)

  // ---- block_desc_init, arena2block, block2arena ---------------------------

  function BlockSize(idx: nat): (r: nat)
    requires idx < DESC_CNT
    ensures 16 <= r <= 1024
  {
    match idx
    case 0 => 16
    case 1 => 32
    case 2 => 64
    case 3 => 128
    case 4 => 256
    case 5 => 512
    case _ => 1024
  }

  function PerArena(idx: nat): nat
    requires idx < DESC_CNT
  {
    (4096 - ARENA_SIZE) / BlockSize(idx)
  }

  /** block_desc_init: seven sizes doubling from 16, each with as many blocks as
      fit in a page behind the header. */
  method BlockDescInit() returns (sizes: seq<nat>, perArena: seq<nat>)
    ensures |sizes| == |perArena| == DESC_CNT && sizes[0] == 16
    ensures forall i :: 0 < i < DESC_CNT ==> sizes[i] == 2 * sizes[i - 1]
    ensures forall i :: 0 <= i < DESC_CNT ==> sizes[i] == BlockSize(i) && perArena[i] == PerArena(i)
    ensures forall i :: 0 <= i < DESC_CNT ==>
      ARENA_SIZE + perArena[i] * sizes[i] <= 4096 < ARENA_SIZE + (perArena[i] + 1) * sizes[i]
  {
    hide BlockSize, PerArena;
    sizes, perArena := [], [];
    var blockSize := 16;
    Doubling(0);
    for i := 0 to DESC_CNT
      invariant |sizes| == |perArena| == i && (i < DESC_CNT ==> blockSize == BlockSize(i))
      invariant forall j :: 0 <= j < i ==> sizes[j] == BlockSize(j) && perArena[j] == PerArena(j)
    {
      Doubling(i);
      sizes := sizes + [blockSize];
      perArena := perArena + [(4096 - ARENA_SIZE) / blockSize];
      blockSize := blockSize * 2;
    }
    forall i: nat | i < DESC_CNT
      ensures i > 0 ==> BlockSize(i) == 2 * BlockSize(i - 1)
      ensures ARENA_SIZE + PerArena(i) * BlockSize(i) <= 4096 < ARENA_SIZE + (PerArena(i) + 1) * BlockSize(i)
    {
      Doubling(i);
      if i > 0 { Doubling(i - 1); }
    }
  }

  lemma Doubling(i: nat)
    requires i < DESC_CNT
    ensures BlockSize(0) == 16 && (i + 1 < DESC_CNT ==> BlockSize(i + 1) == 2 * BlockSize(i))
    ensures PerArena(i) == (4096 - ARENA_SIZE) / BlockSize(i)
    ensures ARENA_SIZE + PerArena(i) * BlockSize(i) <= 4096 < ARENA_SIZE + (PerArena(i) + 1) * BlockSize(i)
  {
  }

  function BlockAt(a: nat, idx: nat, j: nat): nat
    requires idx < DESC_CNT
  {
    a + ARENA_SIZE + j * BlockSize(idx)
  }

  function ArenaOf(b: nat): nat { b / 4096 * 4096 }

  /** Every block lies inside its arena's page, past the header, and block2arena
      finds the way back. */
  lemma BlockInArena(a: nat, idx: nat, j: nat)
    requires a % 4096 == 0 && idx < DESC_CNT && j < PerArena(idx)
    ensures a + ARENA_SIZE <= BlockAt(a, idx, j) && BlockAt(a, idx, j) + BlockSize(idx) <= a + 4096
    ensures ArenaOf(BlockAt(a, idx, j)) == a
  {
    var s, n := BlockSize(idx), PerArena(idx);
    assert (j + 1) * s <= n * s <= 4096 - ARENA_SIZE by { MulLe(j + 1, n, s); }
    assert (j + 1) * s == j * s + s;
    assert 0 <= BlockAt(a, idx, j) - a < 4096;
  }

  lemma MulLe(a: nat, b: nat, c: nat)
    requires a <= b
    ensures a * c <= b * c
  {
  }

  lemma SlotsApart(idx: nat, i: nat, j: nat)
    requires idx < DESC_CNT && i < j
    ensures i * BlockSize(idx) + BlockSize(idx) <= j * BlockSize(idx)
  {
    MulLe(i + 1, j, BlockSize(idx));
  }

  // ---- what the store means ------------------------------------------------

  /** `x` is block `j` of a small arena of class `idx`. */
  predicate IsSlot(h: Store, idx: nat, x: nat, j: nat)
    requires idx < DESC_CNT
  {
    && ArenaOf(x) in h.arenas && h.arenas[ArenaOf(x)].Small? && h.arenas[ArenaOf(x)].idx == idx
    && j < PerArena(idx) && x == BlockAt(ArenaOf(x), idx, j)
  }

  ghost predicate IsBlock(h: Store, idx: nat, x: nat)
    requires idx < DESC_CNT
  {
    exists j: nat :: IsSlot(h, idx, x, j)
  }

  /** A pointer handed out and not yet freed: a block missing from its free list,
      or the area behind a large arena's header. */
  ghost predicate Live(h: Store, p: nat)
    requires |h.free| == DESC_CNT
  {
    || (exists idx: nat :: idx < DESC_CNT && IsBlock(h, idx, p) && p !in h.free[idx])
    || (ArenaOf(p) in h.arenas && h.arenas[ArenaOf(p)].Large? && p == ArenaOf(p) + ARENA_SIZE)
  }

  /** Bytes at a live pointer. */
  function Room(h: Store, p: nat): int
    requires ArenaOf(p) in h.arenas && (h.arenas[ArenaOf(p)].Small? ==> h.arenas[ArenaOf(p)].idx < DESC_CNT)
  {
    var a := h.arenas[ArenaOf(p)];
    if a.Small? then BlockSize(a.idx) else a.cnt * 4096 - ARENA_SIZE
  }

  /** How many elements of `s` lie in arena `a`. */
  function CountIn(s: seq<nat>, a: nat): nat {
    if s == [] then 0 else CountIn(s[..|s| - 1], a) + if ArenaOf(s[|s| - 1]) == a then 1 else 0
  }

  ghost predicate ArenaOk(h: Store, a: nat)
    requires |h.free| == DESC_CNT && a in h.arenas
  {
    && a % 4096 == 0
    && match h.arenas[a]
       case Small(idx, cnt) => idx < DESC_CNT && cnt == CountIn(h.free[idx], a)
       case Large(cnt) => cnt >= 1
  }

  predicate Apart(h: Store, a: nat, b: nat)
    requires a in h.arenas && b in h.arenas
  {
    a + h.arenas[a].Pages() * 4096 <= b || b + h.arenas[b].Pages() * 4096 <= a
  }

  ghost predicate ListsOk(h: Store)
    requires |h.free| == DESC_CNT
  {
    forall idx :: 0 <= idx < DESC_CNT ==> NoDup(h.free[idx]) && forall x :: x in h.free[idx] ==> IsBlock(h, idx, x)
  }

  /** Arenas do not overlap, free lists hold blocks of their own class once each,
      and every small arena counts its blocks in the free list. */
  ghost predicate HeapInv(h: Store) {
    && |h.free| == DESC_CNT && ListsOk(h)
    && (forall a :: a in h.arenas ==> ArenaOk(h, a))
    && (forall a, b :: a in h.arenas && b in h.arenas && a != b ==> Apart(h, a, b))
  }

  /** No small arena is entirely free. */
  ghost predicate AllUsed(h: Store)
    requires HeapInv(h)
  {
    forall a :: a in h.arenas && h.arenas[a].Small? ==>
      ArenaOk(h, a) && h.arenas[a].cnt < PerArena(h.arenas[a].idx)
  }

  /** The bytes at a live pointer lie in its arena, behind the header. */
  lemma LiveInArena(h: Store, p: nat)
    requires HeapInv(h) && Live(h, p)
    ensures ArenaOf(p) in h.arenas && ArenaOk(h, ArenaOf(p))
    ensures ArenaOf(p) + ARENA_SIZE <= p
    ensures p + Room(h, p) <= ArenaOf(p) + h.arenas[ArenaOf(p)].Pages() * 4096
  {
    var a := ArenaOf(p);
    if h.arenas[a].Small? {
      var idx: nat :| idx < DESC_CNT && IsBlock(h, idx, p);
      var j: nat :| IsSlot(h, idx, p, j);
      assert ArenaOk(h, a);
      BlockInArena(a, idx, j);
    } else {
      assert ArenaOk(h, a);
    }
  }

  /** Live blocks never overlap, and none touches an arena header. */
  lemma LiveApart(h: Store, p: nat, q: nat)
    requires HeapInv(h) && Live(h, p) && Live(h, q) && p != q
    ensures ArenaOf(p) in h.arenas && ArenaOk(h, ArenaOf(p)) && ArenaOf(q) in h.arenas && ArenaOk(h, ArenaOf(q))
    ensures p + Room(h, p) <= q || q + Room(h, q) <= p
  {
    LiveInArena(h, p);
    LiveInArena(h, q);
    var a, b := ArenaOf(p), ArenaOf(q);
    if a == b {
      assert h.arenas[a].Small?;
      var idx := h.arenas[a].idx;
      var i: nat :| IsSlot(h, idx, p, i);
      var j: nat :| IsSlot(h, idx, q, j);
      if i < j { SlotsApart(idx, i, j); } else if j < i { SlotsApart(idx, j, i); }
    } else {
      assert Apart(h, a, b);
    }
  }

  ghost predicate ApartAt(h: Store, p: nat, q: nat) {
    && ArenaOf(p) in h.arenas && (h.arenas[ArenaOf(p)].Small? ==> h.arenas[ArenaOf(p)].idx < DESC_CNT)
    && ArenaOf(q) in h.arenas && (h.arenas[ArenaOf(q)].Small? ==> h.arenas[ArenaOf(q)].idx < DESC_CNT)
    && (p + Room(h, p) <= q || q + Room(h, q) <= p)
  }

  lemma LiveApartAt(h: Store, p: nat, q: nat)
    requires HeapInv(h) && Live(h, p) && Live(h, q) && p != q
    ensures ApartAt(h, p, q)
  {
    LiveApart(h, p, q);
  }

  lemma LiveClearOfHeaders(h: Store, p: nat, a: nat)
    requires HeapInv(h) && Live(h, p) && a in h.arenas
    ensures ArenaOf(p) in h.arenas && ArenaOk(h, ArenaOf(p))
    ensures p + Room(h, p) <= a || a + ARENA_SIZE <= p
  {
    LiveInArena(h, p);
    if ArenaOf(p) != a { assert Apart(h, ArenaOf(p), a); assert ArenaOk(h, a); }
  }

  // ---- counting ------------------------------------------------------------

  lemma CountAppend(s: seq<nat>, t: seq<nat>, a: nat)
    ensures CountIn(s + t, a) == CountIn(s, a) + CountIn(t, a)
  {
    if t == [] {
      assert s + t == s;
    } else {
      var n := |t| - 1;
      assert (s + t)[..|s + t| - 1] == s + t[..n];
      CountAppend(s, t[..n], a);
    }
  }

  lemma CountOne(x: nat, a: nat)
    ensures CountIn([x], a) == if ArenaOf(x) == a then 1 else 0
  {
    assert [x][..0] == [];
  }

  lemma CountFront(s: seq<nat>, a: nat)
    requires s != []
    ensures CountIn(s, a) == CountIn(s[1..], a) + if ArenaOf(s[0]) == a then 1 else 0
  {
    assert s == [s[0]] + s[1..];
    CountAppend([s[0]], s[1..], a);
    CountOne(s[0], a);
  }

  ghost function InArena(s: seq<nat>, a: nat): set<nat> { set x | x in s && ArenaOf(x) == a }

  lemma CountIsCard(s: seq<nat>, a: nat)
    requires NoDup(s)
    ensures CountIn(s, a) == |InArena(s, a)|
  {
    if s != [] {
      var n := |s| - 1;
      CountIsCard(s[..n], a);
      assert s == s[..n] + [s[n]];
      if ArenaOf(s[n]) == a {
        assert InArena(s, a) == InArena(s[..n], a) + {s[n]};
      } else {
        assert InArena(s, a) == InArena(s[..n], a);
      }
    }
  }

  /** The blocks of an arena, in address order. */
  function Blocks(a: nat, idx: nat, n: nat): (r: seq<nat>)
    requires idx < DESC_CNT
    ensures |r| == n
    ensures forall j :: 0 <= j < n ==> r[j] == BlockAt(a, idx, j)
  {
    seq(n, j requires 0 <= j < n => BlockAt(a, idx, j))
  }

  lemma BlocksFacts(a: nat, idx: nat, n: nat)
    requires a % 4096 == 0 && idx < DESC_CNT && n <= PerArena(idx)
    ensures NoDup(Blocks(a, idx, n))
    ensures forall b :: CountIn(Blocks(a, idx, n), b) == if b == a then n else 0
  {
    if n > 0 {
      BlocksFacts(a, idx, n - 1);
      var s := Blocks(a, idx, n);
      assert s == Blocks(a, idx, n - 1) + [BlockAt(a, idx, n - 1)];
      assert s[..|s| - 1] == Blocks(a, idx, n - 1);
      BlockInArena(a, idx, n - 1);
      forall i | 0 <= i < n - 1
        ensures s[i] != s[n - 1]
      {
        SlotsApart(idx, i, n - 1);
      }
    }
  }

  /** A free list whose count for an arena equals the arena's capacity holds all
      of its blocks, and only then. */
  lemma FullArena(s: seq<nat>, a: nat, idx: nat)
    requires NoDup(s) && a % 4096 == 0 && idx < DESC_CNT
    requires forall x :: x in s && ArenaOf(x) == a ==> x in Blocks(a, idx, PerArena(idx))
    ensures CountIn(s, a) <= PerArena(idx)
    ensures CountIn(s, a) == PerArena(idx) <==> forall j :: 0 <= j < PerArena(idx) ==> BlockAt(a, idx, j) in s
  {
    var n := PerArena(idx);
    var all := Blocks(a, idx, n);
    BlocksFacts(a, idx, n);
    CountIsCard(s, a);
    CountIsCard(all, a);
    assert InArena(s, a) <= InArena(all, a);
    SubsetCard(InArena(s, a), InArena(all, a));
    forall j | 0 <= j < n
      ensures all[j] in InArena(all, a)
    {
      BlockInArena(a, idx, j);
    }
    if InArena(s, a) == InArena(all, a) {
      assert forall j :: 0 <= j < n ==> all[j] in InArena(s, a);
    } else {
      CardLt(InArena(s, a), InArena(all, a));
      var x :| x in InArena(all, a) && x !in InArena(s, a);
      var j :| 0 <= j < n && all[j] == x;
      assert BlockAt(a, idx, j) !in s;
    }
  }

  lemma CardLt(s: set<nat>, t: set<nat>)
    requires s <= t && s != t
    ensures |s| < |t|
  {
    assert t == s + (t - s) && t - s != {};
  }

  /** An arena exists exactly while it has a live block. */
  lemma ArenaHasLive(h: Store, a: nat)
    requires HeapInv(h) && AllUsed(h) && a in h.arenas
    ensures exists p :: Live(h, p) && ArenaOf(p) == a
  {
    hide CountIn, NoDup, Apart, BlockAt, ListsOk;
    assert ArenaOk(h, a);
    if h.arenas[a].Small? {
      var idx := h.arenas[a].idx;
      FreeListFacts(h, idx);
      ListInArena(h, a);
      FullArena(h.free[idx], a, idx);
      var j :| 0 <= j < PerArena(idx) && BlockAt(a, idx, j) !in h.free[idx];
      BlockInArena(a, idx, j);
      assert IsSlot(h, idx, BlockAt(a, idx, j), j);
      assert Live(h, BlockAt(a, idx, j));
    } else {
      assert ArenaOf(a + ARENA_SIZE) == a;
      assert Live(h, a + ARENA_SIZE);
    }
  }

  /** With nothing live the heap holds no page and no block. */
  lemma NothingHeld(h: Store)
    requires HeapInv(h) && AllUsed(h) && forall p :: !Live(h, p)
    ensures h.arenas == map[] && forall idx :: 0 <= idx < DESC_CNT ==> h.free[idx] == []
  {
    hide CountIn, NoDup, Apart, Live;
    forall a | a in h.arenas
      ensures false
    {
      ArenaHasLive(h, a);
    }
    forall idx | 0 <= idx < DESC_CNT
      ensures h.free[idx] == []
    {
      assert h.free[idx] != [] ==> IsBlock(h, idx, h.free[idx][0]);
    }
  }

  lemma ListInArena(h: Store, a: nat)
    requires HeapInv(h) && a in h.arenas && h.arenas[a].Small? && ArenaOk(h, a)
    ensures var idx := h.arenas[a].idx;
            forall x :: x in h.free[idx] && ArenaOf(x) == a ==> x in Blocks(a, idx, PerArena(idx))
  {
    var idx := h.arenas[a].idx;
    forall x | x in h.free[idx] && ArenaOf(x) == a
      ensures x in Blocks(a, idx, PerArena(idx))
    {
      assert IsBlock(h, idx, x);
      var j: nat :| IsSlot(h, idx, x, j);
      assert Blocks(a, idx, PerArena(idx))[j] == x;
    }
  }

  // ---- what the operations do to the store ---------------------------------

  /** The range at `a` of `n` pages overlaps no arena. */
  ghost predicate RangeFree(h: Store, a: nat, n: nat) {
    forall b :: b in h.arenas ==> a + n * 4096 <= b || b + h.arenas[b].Pages() * 4096 <= a
  }

  /** A fresh page becomes an arena of class `idx`, its blocks at the back of the list. */
  function AddArena(h: Store, a: nat, idx: nat): Store
    requires idx < |h.free| == DESC_CNT
  {
    Store(h.arenas[a := Small(idx, PerArena(idx))],
          h.free[idx := h.free[idx] + Blocks(a, idx, PerArena(idx))])
  }

  function AddLarge(h: Store, a: nat, n: nat): Store { h.(arenas := h.arenas[a := Large(n)]) }

  function DropLarge(h: Store, a: nat): Store { h.(arenas := h.arenas - {a}) }

  /** The front block of list `idx` leaves it. */
  function PopBlock(h: Store, idx: nat): Store
    requires idx < |h.free| == DESC_CNT && h.free[idx] != []
    requires ArenaOf(h.free[idx][0]) in h.arenas && h.arenas[ArenaOf(h.free[idx][0])].Small?
    requires h.arenas[ArenaOf(h.free[idx][0])].cnt >= 1
  {
    var a := ArenaOf(h.free[idx][0]);
    Store(h.arenas[a := Small(h.arenas[a].idx, h.arenas[a].cnt - 1)], h.free[idx := h.free[idx][1..]])
  }

  function PushBlock(h: Store, p: nat): Store
    requires |h.free| == DESC_CNT && ArenaOf(p) in h.arenas && h.arenas[ArenaOf(p)].Small?
    requires h.arenas[ArenaOf(p)].idx < DESC_CNT
  {
    var a := ArenaOf(p);
    var idx := h.arenas[a].idx;
    Store(h.arenas[a := Small(idx, h.arenas[a].cnt + 1)], h.free[idx := h.free[idx] + [p]])
  }

  /** `s` without the blocks of arena `a` that lie below `lim`. */
  function Purge(s: seq<nat>, a: nat, lim: nat): (r: seq<nat>)
    ensures forall x :: x in r <==> x in s && !(ArenaOf(x) == a && x < lim)
  {
    if s == [] then []
    else
      assert s == [s[0]] + s[1..];
      if ArenaOf(s[0]) == a && s[0] < lim then Purge(s[1..], a, lim) else [s[0]] + Purge(s[1..], a, lim)
  }

  /** An entirely free arena leaves the lists and goes. */
  function DropArena(h: Store, a: nat): Store
    requires |h.free| == DESC_CNT && a in h.arenas && h.arenas[a].Small? && h.arenas[a].idx < DESC_CNT
  {
    var idx := h.arenas[a].idx;
    Store(h.arenas - {a}, h.free[idx := Purge(h.free[idx], a, a + 4096)])
  }

  ghost predicate SameLive(h: Store, h': Store)
    requires |h.free| == |h'.free| == DESC_CNT
  {
    forall p :: Live(h', p) <==> Live(h, p)
  }

  lemma AddArenaInv(h: Store, a: nat, idx: nat)
    requires HeapInv(h) && a % 4096 == 0 && idx < DESC_CNT && a !in h.arenas && RangeFree(h, a, 1)
    ensures HeapInv(AddArena(h, a, idx)) && SameLive(h, AddArena(h, a, idx))
  {
    hide CountIn, IsBlock, Live, BlockAt, ArenaOf, Blocks, NoDup;
    var h' := AddArena(h, a, idx);
    AddArenaLists(h, a, idx);
    AddArenaLive(h, a, idx);
    var cut := Blocks(a, idx, PerArena(idx));
    BlocksFacts(a, idx, PerArena(idx));
    NoneOf(h, idx, a);
    forall b | b in h'.arenas
      ensures ArenaOk(h', b)
    {
      CountAppend(h.free[idx], cut, b);
      assert b != a ==> ArenaOk(h, b);
    }
    forall b, c | b in h'.arenas && c in h'.arenas && b != c
      ensures Apart(h', b, c)
    {
      assert b != a && c != a ==> Apart(h, b, c);
    }
  }

  lemma AddArenaLists(h: Store, a: nat, idx: nat)
    requires |h.free| == DESC_CNT && ListsOk(h) && a % 4096 == 0 && idx < DESC_CNT && a !in h.arenas
    ensures ListsOk(AddArena(h, a, idx))
  {
    hide CountIn;
    var h' := AddArena(h, a, idx);
    var n := PerArena(idx);
    var cut := Blocks(a, idx, n);
    BlocksFacts(a, idx, n);
    forall j | 0 <= j < n
      ensures IsSlot(h', idx, cut[j], j)
    {
      BlockInArena(a, idx, j);
    }
    forall i, x | 0 <= i < DESC_CNT && x in h.free[i]
      ensures IsBlock(h', i, x) && ArenaOf(x) != a
    {
      assert IsBlock(h, i, x);
      SameBlocks(h, h', x);
    }
  }

  lemma AddArenaLive(h: Store, a: nat, idx: nat)
    requires HeapInv(h) && a % 4096 == 0 && idx < DESC_CNT && a !in h.arenas
    ensures SameLive(h, AddArena(h, a, idx))
  {
    hide CountIn, NoDup;
    var h' := AddArena(h, a, idx);
    var cut := Blocks(a, idx, PerArena(idx));
    forall p
      ensures Live(h', p) <==> Live(h, p)
    {
      if ArenaOf(p) == a {
        forall i: nat | i < DESC_CNT && IsBlock(h', i, p)
          ensures p in h'.free[i]
        {
          var j: nat :| IsSlot(h', i, p, j);
          assert cut[j] == p;
        }
      } else {
        SameBlocks(h, h', p);
        forall j | 0 <= j < |cut|
          ensures cut[j] != p
        {
          BlockInArena(a, idx, j);
        }
      }
    }
  }

  /** Whether `p` is a block depends only on its arena's class. */
  lemma SameBlocks(h: Store, h': Store, p: nat)
    requires ArenaOf(p) in h.arenas <==> ArenaOf(p) in h'.arenas
    requires ArenaOf(p) in h.arenas ==>
               && h.arenas[ArenaOf(p)].Small? == h'.arenas[ArenaOf(p)].Small?
               && (h.arenas[ArenaOf(p)].Small? ==> h.arenas[ArenaOf(p)].idx == h'.arenas[ArenaOf(p)].idx)
    ensures forall i: nat :: i < DESC_CNT ==> (IsBlock(h, i, p) <==> IsBlock(h', i, p))
  {
    assert forall i: nat, j: nat :: i < DESC_CNT ==> (IsSlot(h, i, p, j) <==> IsSlot(h', i, p, j));
  }

  lemma NoneOf(h: Store, idx: nat, a: nat)
    requires |h.free| == DESC_CNT && ListsOk(h) && idx < DESC_CNT && a !in h.arenas
    ensures CountIn(h.free[idx], a) == 0
  {
    CountIsCard(h.free[idx], a);
    forall x | x in h.free[idx]
      ensures ArenaOf(x) != a
    {
      assert IsBlock(h, idx, x);
    }
    assert InArena(h.free[idx], a) == {};
  }

  lemma PopBlockFacts(h: Store, idx: nat)
    requires HeapInv(h) && idx < DESC_CNT && h.free[idx] != []
    ensures var b := h.free[idx][0];
            && ArenaOf(b) in h.arenas && ArenaOk(h, ArenaOf(b)) && IsBlock(h, idx, b)
            && h.arenas[ArenaOf(b)].Small? && h.arenas[ArenaOf(b)].idx == idx
            && 1 <= h.arenas[ArenaOf(b)].cnt <= PerArena(idx)
  {
    hide Blocks, ArenaOf;
    var s := h.free[idx];
    assert IsBlock(h, idx, s[0]);
    var a := ArenaOf(s[0]);
    assert ArenaOk(h, a);
    CountFront(s, a);
    ListInArena(h, a);
    FullArena(s, a, idx);
  }

  lemma PopBlockInv(h: Store, idx: nat)
    requires HeapInv(h) && idx < DESC_CNT && h.free[idx] != []
    ensures var b := h.free[idx][0];
            && ArenaOf(b) in h.arenas && h.arenas[ArenaOf(b)].Small? && h.arenas[ArenaOf(b)].idx == idx
            && h.arenas[ArenaOf(b)].cnt >= 1
            && HeapInv(PopBlock(h, idx)) && PopBlock(h, idx).arenas[ArenaOf(b)].cnt < PerArena(idx)
  {
    PopBlockFacts(h, idx);
    hide Blocks, ArenaOf;
    var s := h.free[idx];
    var h' := PopBlock(h, idx);
    forall i, x | 0 <= i < DESC_CNT && x in h'.free[i]
      ensures IsBlock(h', i, x)
    {
      assert x in h.free[i] && IsBlock(h, i, x);
      SameBlocks(h, h', x);
    }
    forall c | c in h'.arenas
      ensures ArenaOk(h', c)
    {
      assert ArenaOk(h, c);
      CountFront(s, c);
    }
    forall c, d | c in h'.arenas && d in h'.arenas && c != d
      ensures Apart(h', c, d)
    {
      assert Apart(h, c, d);
    }
  }

  lemma PopBlockLive(h: Store, idx: nat)
    requires HeapInv(h) && idx < DESC_CNT && h.free[idx] != []
    requires ArenaOf(h.free[idx][0]) in h.arenas && h.arenas[ArenaOf(h.free[idx][0])].Small?
    requires h.arenas[ArenaOf(h.free[idx][0])].cnt >= 1
    ensures !Live(h, h.free[idx][0])
    ensures forall p :: Live(PopBlock(h, idx), p) <==> Live(h, p) || p == h.free[idx][0]
  {
    hide CountIn, ArenaOf, ArenaOk, Apart;
    PopBlockFacts(h, idx);
    var h' := PopBlock(h, idx);
    var s := h.free[idx];
    forall p
      ensures Live(h', p) <==> Live(h, p) || p == s[0]
    {
      SameBlocks(h, h', p);
      assert p in s <==> p == s[0] || p in s[1..];
    }
  }

  lemma PushBlockFacts(h: Store, p: nat)
    requires HeapInv(h) && Live(h, p) && ArenaOf(p) in h.arenas && h.arenas[ArenaOf(p)].Small?
    ensures var a := ArenaOf(p);
            && ArenaOk(h, a) && h.arenas[a].idx < DESC_CNT
            && IsBlock(h, h.arenas[a].idx, p) && p !in h.free[h.arenas[a].idx]
  {
    hide CountIn, ArenaOf;
    var k: nat :| k < DESC_CNT && IsBlock(h, k, p) && p !in h.free[k];
    assert ArenaOk(h, ArenaOf(p));
  }

  lemma PushBlockInv(h: Store, p: nat)
    requires HeapInv(h) && Live(h, p) && ArenaOf(p) in h.arenas && h.arenas[ArenaOf(p)].Small?
    ensures h.arenas[ArenaOf(p)].idx < DESC_CNT
    ensures HeapInv(PushBlock(h, p))
  {
    hide ArenaOf, Live;
    PushBlockFacts(h, p);
    var idx := h.arenas[ArenaOf(p)].idx;
    var h' := PushBlock(h, p);
    forall i, x | 0 <= i < DESC_CNT && x in h'.free[i]
      ensures IsBlock(h', i, x)
    {
      assert x == p || IsBlock(h, i, x);
      SameBlocks(h, h', x);
    }
    forall c | c in h'.arenas
      ensures ArenaOk(h', c)
    {
      assert ArenaOk(h, c);
      CountAppend(h.free[idx], [p], c);
      CountOne(p, c);
    }
    forall c, d | c in h'.arenas && d in h'.arenas && c != d
      ensures Apart(h', c, d)
    {
      assert Apart(h, c, d);
    }
  }

  lemma PushBlockLive(h: Store, p: nat)
    requires HeapInv(h) && Live(h, p) && ArenaOf(p) in h.arenas && h.arenas[ArenaOf(p)].Small?
    requires h.arenas[ArenaOf(p)].idx < DESC_CNT
    ensures forall q :: Live(PushBlock(h, p), q) <==> Live(h, q) && q != p
  {
    hide CountIn, ArenaOf, ArenaOk, Apart;
    PushBlockFacts(h, p);
    var h' := PushBlock(h, p);
    forall q
      ensures Live(h', q) <==> Live(h, q) && q != p
    {
      SameBlocks(h, h', q);
    }
  }

  lemma PurgeFacts(s: seq<nat>, a: nat, lim: nat)
    requires NoDup(s)
    ensures NoDup(Purge(s, a, lim))
    ensures forall b :: b != a ==> CountIn(Purge(s, a, lim), b) == CountIn(s, b)
  {
    if s != [] {
      var x, t := s[0], Purge(s[1..], a, lim);
      PurgeFacts(s[1..], a, lim);
      assert x !in t;
      forall b | b != a
        ensures CountIn(Purge(s, a, lim), b) == CountIn(s, b)
      {
        CountFront(s, b);
        CountFront([x] + t, b);
        assert ([x] + t)[1..] == t;
      }
    }
  }

  lemma DropArenaInv(h: Store, a: nat)
    requires HeapInv(h) && a in h.arenas && h.arenas[a].Small? && ArenaOk(h, a)
    ensures HeapInv(DropArena(h, a))
  {
    hide CountIn, NoDup;
    var idx := h.arenas[a].idx;
    var h' := DropArena(h, a);
    PurgeFacts(h.free[idx], a, a + 4096);
    forall i, x | 0 <= i < DESC_CNT && x in h'.free[i]
      ensures IsBlock(h', i, x)
    {
      assert x in h.free[i] && IsBlock(h, i, x);
      assert ArenaOf(x) != a;
      SameBlocks(h, h', x);
    }
    forall c | c in h'.arenas
      ensures ArenaOk(h', c)
    {
      assert ArenaOk(h, c);
    }
    forall c, d | c in h'.arenas && d in h'.arenas && c != d
      ensures Apart(h', c, d)
    {
      assert Apart(h, c, d);
    }
  }

  lemma DropArenaLive(h: Store, a: nat)
    requires HeapInv(h) && a in h.arenas && h.arenas[a].Small? && ArenaOk(h, a)
    requires h.arenas[a].cnt == PerArena(h.arenas[a].idx)
    ensures SameLive(h, DropArena(h, a))
  {
    hide CountIn, NoDup, Apart;
    var idx := h.arenas[a].idx;
    var h' := DropArena(h, a);
    ListInArena(h, a);
    FullArena(h.free[idx], a, idx);
    forall p
      ensures Live(h', p) <==> Live(h, p)
    {
      if ArenaOf(p) != a {
        SameBlocks(h, h', p);
      } else if IsBlock(h, idx, p) {
        var j: nat :| IsSlot(h, idx, p, j);
        assert p == BlockAt(a, idx, j) && p in h.free[idx];
      }
    }
  }

  lemma AddLargeLive(h: Store, a: nat, n: nat)
    requires HeapInv(h) && a % 4096 == 0 && a !in h.arenas
    ensures !Live(h, a + ARENA_SIZE) && ArenaOf(a + ARENA_SIZE) == a
    ensures forall p :: Live(AddLarge(h, a, n), p) <==> Live(h, p) || p == a + ARENA_SIZE
  {
    hide CountIn, NoDup, BlockAt, PerArena, Apart;
    var h' := AddLarge(h, a, n);
    assert ArenaOf(a + ARENA_SIZE) == a;
    hide ArenaOf;
    forall p
      ensures Live(h', p) <==> Live(h, p) || p == a + ARENA_SIZE
    {
      if ArenaOf(p) != a { SameBlocks(h, h', p); }
    }
  }

  lemma AddLargeInv(h: Store, a: nat, n: nat)
    requires HeapInv(h) && a % 4096 == 0 && n >= 1 && a !in h.arenas && RangeFree(h, a, n)
    ensures HeapInv(AddLarge(h, a, n))
  {
    hide CountIn, NoDup, BlockAt, PerArena, ArenaOf;
    var h' := AddLarge(h, a, n);
    forall i, x | 0 <= i < DESC_CNT && x in h.free[i]
      ensures IsBlock(h', i, x)
    {
      assert IsBlock(h, i, x) && ArenaOf(x) != a;
      SameBlocks(h, h', x);
    }
    forall c | c in h.arenas
      ensures ArenaOk(h', c)
    {
      assert ArenaOk(h, c);
    }
    forall c, d | c in h'.arenas && d in h'.arenas && c != d
      ensures Apart(h', c, d)
    {
      assert c != a && d != a ==> Apart(h, c, d);
    }
  }

  lemma DropLargeInv(h: Store, a: nat)
    requires HeapInv(h) && a in h.arenas && h.arenas[a].Large? && a % 4096 == 0
    ensures HeapInv(DropLarge(h, a))
    ensures forall p :: Live(DropLarge(h, a), p) <==> Live(h, p) && p != a + ARENA_SIZE
  {
    hide CountIn, NoDup;
    var h' := DropLarge(h, a);
    forall p | ArenaOf(p) != a
      ensures Live(h', p) <==> Live(h, p)
      ensures forall i: nat :: i < DESC_CNT ==> (IsBlock(h, i, p) <==> IsBlock(h', i, p))
    {
      SameBlocks(h, h', p);
    }
    forall i, x | 0 <= i < DESC_CNT && x in h.free[i]
      ensures IsBlock(h', i, x)
    {
      assert IsBlock(h, i, x) && ArenaOf(x) != a;
    }
    forall c | c in h'.arenas
      ensures ArenaOk(h', c)
    {
      assert ArenaOk(h, c);
    }
    forall c, d | c in h'.arenas && d in h'.arenas && c != d
      ensures Apart(h', c, d)
    {
      assert Apart(h, c, d);
    }
  }

  // ---- taking an arena's blocks out of the list one by one -----------------

  /** list_remove of one element. */
  function Remove(s: seq<nat>, x: nat): seq<nat>
    requires x in s
  {
    if s[0] == x then s[1..] else [s[0]] + Remove(s[1..], x)
  }

  /** Removing block `j` after the blocks before it. */
  lemma RemoveNext(s: seq<nat>, a: nat, idx: nat, j: nat)
    requires NoDup(s) && idx < DESC_CNT && a % 4096 == 0 && j < PerArena(idx)
    requires forall x :: x in s && ArenaOf(x) == a ==> x in Blocks(a, idx, PerArena(idx))
    requires BlockAt(a, idx, j) in s
    ensures BlockAt(a, idx, j) in Purge(s, a, BlockAt(a, idx, j))
    ensures Remove(Purge(s, a, BlockAt(a, idx, j)), BlockAt(a, idx, j)) == Purge(s, a, BlockAt(a, idx, j + 1))
  {
    BlockInArena(a, idx, j);
    SlotsApart(idx, j, j + 1);
    var lo, hi := BlockAt(a, idx, j), BlockAt(a, idx, j + 1);
    if s[0] == lo {
      PurgeGap(s[1..], a, idx, j);
    } else {
      RemoveNext(s[1..], a, idx, j);
      NotBetween(s[0], a, idx, j);
    }
  }

  lemma NotBetween(x: nat, a: nat, idx: nat, j: nat)
    requires idx < DESC_CNT && a % 4096 == 0 && j < PerArena(idx) && x != BlockAt(a, idx, j)
    requires ArenaOf(x) == a ==> x in Blocks(a, idx, PerArena(idx))
    ensures ArenaOf(x) == a ==> (x < BlockAt(a, idx, j) <==> x < BlockAt(a, idx, j + 1))
  {
    if ArenaOf(x) == a {
      var i :| 0 <= i < PerArena(idx) && x == BlockAt(a, idx, i);
      if i < j { SlotsApart(idx, i, j); SlotsApart(idx, i, j + 1); }
      else if j < i && i > j + 1 { SlotsApart(idx, j + 1, i); SlotsApart(idx, j, i); }
      else { SlotsApart(idx, j, j + 1); }
    }
  }

  lemma PurgeGap(s: seq<nat>, a: nat, idx: nat, j: nat)
    requires idx < DESC_CNT && a % 4096 == 0 && j < PerArena(idx) && BlockAt(a, idx, j) !in s
    requires forall x :: x in s && ArenaOf(x) == a ==> x in Blocks(a, idx, PerArena(idx))
    ensures Purge(s, a, BlockAt(a, idx, j)) == Purge(s, a, BlockAt(a, idx, j + 1))
  {
    if s != [] {
      NotBetween(s[0], a, idx, j);
      PurgeGap(s[1..], a, idx, j);
    }
  }

  lemma PurgeAll(s: seq<nat>, a: nat, idx: nat)
    requires idx < DESC_CNT && a % 4096 == 0
    requires forall x :: x in s && ArenaOf(x) == a ==> x in Blocks(a, idx, PerArena(idx))
    ensures Purge(s, a, BlockAt(a, idx, 0)) == s
    ensures Purge(s, a, BlockAt(a, idx, PerArena(idx))) == Purge(s, a, a + 4096)
  {
    hide BlockAt, ArenaOf, BlockSize, PerArena;
    if s != [] {
      PurgeAll(s[1..], a, idx);
      if ArenaOf(s[0]) == a {
        Limits(s[0], a, idx);
      }
    }
  }

  lemma Limits(x: nat, a: nat, idx: nat)
    requires idx < DESC_CNT && a % 4096 == 0 && x in Blocks(a, idx, PerArena(idx))
    ensures BlockAt(a, idx, 0) <= x < BlockAt(a, idx, PerArena(idx)) && x < a + 4096
  {
    var i :| 0 <= i < PerArena(idx) && x == BlockAt(a, idx, i);
    BlockInArena(a, idx, i);
    SlotsApart(idx, i, PerArena(idx));
  }

  // ---- the heap over its pages ---------------------------------------------

  /** Every page of every arena is a page of the heap's own pool. */
  ghost predicate Backed(h: Store, v: View, pf: Flag) {
    forall a, p :: a in h.arenas && a / 4096 <= p < a / 4096 + h.arenas[a].Pages() ==> Owned(v, pf, p)
  }

  /** Mapping further pages keeps the arenas backed and puts the new pages clear of them. */
  lemma BackedMore(h: Store, v: View, v': View, pf: Flag, s: nat, n: nat, k: nat)
    requires ViewOk(v) && Backed(h, v, pf) && k <= n
    requires v.SpaceOf(pf).start <= s && ClearRun(v.SpaceOf(pf).bits, s - v.SpaceOf(pf).start, n)
    requires MappedRun(Opened(v, pf, s, n, true), v', pf, s, k)
    ensures Backed(h, v', pf)
    ensures forall p :: s <= p < s + k ==> Owned(v', pf, p)
  {
    hide ViewOk, MappedRun, Owned;
    OwnedAfterMalloc(v, v', pf, s, n, k);
  }

  lemma FreshRange(h: Store, v: View, pf: Flag, s: nat, n: nat)
    requires HeapInv(h) && Backed(h, v, pf) && n >= 1
    requires forall p :: s <= p < s + n ==> p !in v.pages
    ensures s * 4096 !in h.arenas && RangeFree(h, s * 4096, n)
  {
    hide ListsOk, CountIn, Apart;
    forall b | b in h.arenas
      ensures b != s * 4096
      ensures s * 4096 + n * 4096 <= b || b + h.arenas[b].Pages() * 4096 <= s * 4096
    {
      assert ArenaOk(h, b);
      var t := b / 4096;
      assert b == t * 4096;
      var p := if s <= t then t else s;
      assert t <= p < t + h.arenas[b].Pages() ==> Owned(v, pf, p);
    }
  }

  lemma BackedLess(h: Store, v: View, v': View, pf: Flag, a: nat)
    requires HeapInv(h) && Backed(h, v, pf) && a in h.arenas && ArenaOk(h, a)
    requires FreedRun(v, v', pf, a / 4096, h.arenas[a].Pages())
    ensures forall f: seq<seq<nat>> :: Backed(Store(h.arenas - {a}, f), v', pf)
  {
    hide ListsOk, CountIn;
    forall b, p | b in h.arenas && b != a && b / 4096 <= p < b / 4096 + h.arenas[b].Pages()
      ensures Owned(v', pf, p)
    {
      assert Owned(v, pf, p) && Apart(h, a, b) && ArenaOk(h, b);
    }
  }

  /** No small arena other than `x` is entirely free. */
  ghost predicate AllUsedBut(h: Store, x: nat)
    requires HeapInv(h)
  {
    forall a :: a in h.arenas && a != x && h.arenas[a].Small? ==>
      ArenaOk(h, a) && h.arenas[a].cnt < PerArena(h.arenas[a].idx)
  }

  lemma UsedAfterPop(h: Store, idx: nat)
    requires HeapInv(h) && idx < DESC_CNT && h.free[idx] != [] && AllUsedBut(h, ArenaOf(h.free[idx][0]))
    requires ArenaOf(h.free[idx][0]) in h.arenas && h.arenas[ArenaOf(h.free[idx][0])].Small?
    requires h.arenas[ArenaOf(h.free[idx][0])].cnt >= 1
    ensures HeapInv(PopBlock(h, idx)) && AllUsed(PopBlock(h, idx))
  {
    hide CountIn, ListsOk, Apart;
    PopBlockInv(h, idx);
    assert forall a :: a in PopBlock(h, idx).arenas ==> ArenaOk(PopBlock(h, idx), a);
  }

  /** Large enough, and of the least class or page count that is. */
  predicate Fits(size: nat, room: int) {
    && size <= room
    && if size <= 1024 then room == 16 || room < 2 * size else room < size + 4096
  }

  datatype Request = Alloc(size: nat) | Release(ptr: nat)

  datatype Ptr = Null | At(addr: nat) | Wild | Halt

  /** The pages of an arena of its own; malloc_page asserts that they are fewer than 3840. */
  function PagesFor(size: nat): nat { (size + ARENA_SIZE + 4095) / 4096 }

  // ---- pages in and out ---------------------------------------------------

  /** Page `p` belongs to an arena. */
  ghost predicate Covers(h: Store, p: nat) {
    exists a :: a in h.arenas && a / 4096 <= p < a / 4096 + h.arenas[a].Pages()
  }

  /** The pages that belong to no arena are the same before and after: whatever
      was mapped for the heap is in an arena, and what left one is unmapped. */
  ghost predicate SameRest(h: Store, v: View, h': Store, v': View) {
    forall p: nat :: p in v.pages && !Covers(h, p) <==> p in v'.pages && !Covers(h', p)
  }

  ghost predicate PagesAdded(v: View, v': View, s: nat, n: nat) {
    && (forall p :: p in v'.pages <==> p in v.pages || s <= p < s + n)
    && forall p :: s <= p < s + n ==> p !in v.pages
  }

  lemma RestTaken(h: Store, v: View, h': Store, v': View, a: nat, x: Arena)
    requires a !in h.arenas && h'.arenas == h.arenas[a := x] && PagesAdded(v, v', a / 4096, x.Pages())
    ensures SameRest(h, v, h', v')
  {
    forall p: nat ensures Covers(h', p) <==> Covers(h, p) || a / 4096 <= p < a / 4096 + x.Pages() {
      if Covers(h, p) {
        var b :| b in h.arenas && b / 4096 <= p < b / 4096 + h.arenas[b].Pages();
        assert b in h'.arenas && h'.arenas[b] == h.arenas[b];
      }
      assert h'.arenas[a] == x;
    }
  }

  lemma RestGiven(h: Store, v: View, h': Store, v': View, a: nat)
    requires a in h.arenas && h'.arenas == h.arenas - {a}
    requires forall p :: p in v'.pages <==> p in v.pages && !(a / 4096 <= p < a / 4096 + h.arenas[a].Pages())
    ensures SameRest(h, v, h', v')
  {
    forall p: nat | !(a / 4096 <= p < a / 4096 + h.arenas[a].Pages()) ensures Covers(h', p) <==> Covers(h, p) {
      if Covers(h, p) {
        var b :| b in h.arenas && b / 4096 <= p < b / 4096 + h.arenas[b].Pages();
        assert b in h'.arenas && h'.arenas[b] == h.arenas[b];
      }
    }
  }

  /** Moving blocks about keeps the arenas' pages. */
  lemma RestKept(h: Store, v: View, h': Store, v': View)
    requires h'.arenas.Keys == h.arenas.Keys && (forall a :: a in h.arenas ==> h'.arenas[a].Pages() == h.arenas[a].Pages())
    requires v'.pages == v.pages
    ensures SameRest(h, v, h', v')
  {
    forall p: nat ensures Covers(h', p) <==> Covers(h, p) {
      if Covers(h, p) {
        var b :| b in h.arenas && b / 4096 <= p < b / 4096 + h.arenas[b].Pages();
        assert b in h'.arenas;
      }
    }
  }

  lemma RunAdded(v: View, v': View, pf: Flag, n: nat)
    requires 1 <= n && FirstRun(v.SpaceOf(pf).bits, n) >= 0 && MappedRun(Reserve(v, pf, n), v', pf, RunStart(v, pf, n), n)
    ensures PagesAdded(v, v', RunStart(v, pf, n), n)
  {
  }

  /** With no arena before and none after, the same pages are mapped. */
  lemma NothingLeaked(h: Store, v: View, h': Store, v': View)
    requires SameRest(h, v, h', v') && h.arenas == map[] && h'.arenas == map[]
    ensures v'.pages.Keys == v.pages.Keys
  {
    assert forall p: nat :: !Covers(h, p) && !Covers(h', p);
  }

  /** A block goes to the end of its free list, unless its arena goes. */
  ghost predicate FreedTo(h: Store, h': Store, ptr: nat) {
    var a := ArenaOf(ptr);
    && a in h.arenas
    && (a in h'.arenas ==>
          && h.arenas[a].Small? && h.arenas[a].idx < |h.free| == |h'.free|
          && h'.free == h.free[h.arenas[a].idx := h.free[h.arenas[a].idx] + [ptr]])
  }

  /** Some request in range found no pages. */
  ghost predicate RanShort(poolSize: nat, script: seq<Request>, rs: seq<Ptr>) {
    exists i :: 0 <= i < |rs| && i < |script| && rs[i].Null? && script[i].Alloc? && 0 < script[i].size < poolSize
  }

  lemma ShortMore(poolSize: nat, script: seq<Request>, rs: seq<Ptr>, r: Ptr)
    requires |rs| < |script|
    ensures RanShort(poolSize, script, rs) ==> RanShort(poolSize, script, rs + [r])
    ensures r.Null? && script[|rs|].Alloc? && 0 < script[|rs|].size < poolSize ==> RanShort(poolSize, script, rs + [r])
  {
    var more := rs + [r];
    assert more[|rs|] == r;
    assert forall i :: 0 <= i < |rs| ==> more[i] == rs[i];
  }

  /** The run of pages that first fit finds starts at `vaddr`. */
  ghost predicate FirstFit(v: View, pf: Flag, n: nat, vaddr: nat)
    requires 1 <= n
  {
    CanMap(v, pf, n) && vaddr == RunStart(v, pf, n) * 4096
  }

  /** The least class that fits. */
  predicate LeastFit(size: nat, idx: nat) {
    idx < DESC_CNT && size <= BlockSize(idx) && forall i :: 0 <= i < idx ==> BlockSize(i) < size
  }

  /** Where the pointer for a small size comes from: the front of the free list of
      its class, else the first block of the page that first fit finds, else nowhere. */
  ghost predicate SmallAnswer(h: Store, v: View, pf: Flag, size: nat, r: Ptr)
    requires |h.free| == DESC_CNT
  {
    exists idx: nat :: LeastFit(size, idx) &&
      if h.free[idx] != [] then r == At(h.free[idx][0])
      else if CanMap(v, pf, 1) then r == At(RunStart(v, pf, 1) * 4096 + ARENA_SIZE)
      else r.Null? || r.Wild?
  }

  /** For a large one: past the header at the start of the run that first fit finds. */
  ghost predicate LargeAnswer(v: View, pf: Flag, n: nat, r: Ptr)
    requires 1 <= n
  {
    if CanMap(v, pf, n) then r == At(RunStart(v, pf, n) * 4096 + ARENA_SIZE) else r.Null? || r.Wild?
  }

  /** What sys_malloc answers, from the free lists, addresses and frames there are. */
  ghost predicate Answer(h: Store, v: View, pf: Flag, poolSize: nat, size: nat, r: Ptr)
    requires |h.free| == DESC_CNT
  {
    if size == 0 || size >= poolSize then r.Null?
    else if size <= 1024 then SmallAnswer(h, v, pf, size, r)
    else if PagesFor(size) >= 3840 then r.Halt?
    else LargeAnswer(v, pf, PagesFor(size), r)
  }

  datatype HeapState = HeapState(h: Store, v: View)

  /** One request of a script, answered. */
  ghost predicate Served(s: HeapState, s2: HeapState, pf: Flag, poolSize: nat, req: Request, r: Ptr) {
    |s.h.free| == |s2.h.free| == DESC_CNT &&
    match req
    case Alloc(size) =>
      && Answer(s.h, s.v, pf, poolSize, size, r) && !r.Wild?
      && (r.At? ==> !Live(s.h, r.addr)) && forall p :: Live(s2.h, p) <==> Live(s.h, p) || r == At(p)
    case Release(ptr) => forall p :: Live(s2.h, p) <==> Live(s.h, p) && p != ptr
  }

  ghost predicate ServedAll(trail: seq<HeapState>, pf: Flag, poolSize: nat, script: seq<Request>, rs: seq<Ptr>) {
    && |rs| <= |script| && |trail| == |rs| + 1
    && forall i :: 0 <= i < |rs| ==> Served(trail[i], trail[i + 1], pf, poolSize, script[i], rs[i])
  }

  lemma ServedMore(trail: seq<HeapState>, pf: Flag, poolSize: nat, script: seq<Request>, rs: seq<Ptr>, s: HeapState, r: Ptr)
    requires ServedAll(trail, pf, poolSize, script, rs) && |rs| < |script|
    requires Served(trail[|rs|], s, pf, poolSize, script[|rs|], r)
    ensures ServedAll(trail + [s], pf, poolSize, script, rs + [r])
  {
    hide Served;
  }

  class Heap {
    const pf: Flag
    const poolSize: nat      // bytes of the pool the heap draws on
    const pager: Pager
    var h: Store

    constructor (pf: Flag, pager: Pager)
      requires Valid(pager.m)
      ensures this.pf == pf && this.pager == pager && poolSize == |pager.m.PoolOf(pf).bits| * 4096
      ensures Ok() && forall p :: !Live(h, p)
    {
      this.pf, this.pager, poolSize := pf, pager, |pager.m.PoolOf(pf).bits| * 4096;
      h := Store(map[], seq(DESC_CNT, i => []));
    }

    ghost predicate Ok()
      reads this, pager
    {
      Valid(pager.m) && HeapInv(h) && AllUsed(h) && Backed(h, Abs(pager.m), pf)
    }

    /** Pages for an arena: fresh, owned and clear of every arena. */
    method TakePages(n: nat) returns (r: PageResult)
      requires Valid(pager.m) && HeapInv(h) && Backed(h, Abs(pager.m), pf) && 0 < n < 3840
      modifies pager
      ensures r.NoTable? ==> pf.User?
      ensures !r.NoTable? ==> Valid(pager.m) && Backed(h, Abs(pager.m), pf)
      ensures r.Pages? <==> CanMap(Abs(old(pager.m)), pf, n)
      ensures r.Pages? ==> FirstFit(Abs(old(pager.m)), pf, n, r.vaddr)
      ensures r.Pages? ==> PagesAdded(Abs(old(pager.m)), Abs(pager.m), r.vaddr / 4096, n)
      ensures r.Pages? ==>
        && r.vaddr % 4096 == 0 && r.vaddr !in h.arenas && RangeFree(h, r.vaddr, n)
        && forall p :: r.vaddr / 4096 <= p < r.vaddr / 4096 + n ==> Owned(Abs(pager.m), pf, p)
    {
      hide TablesOk, ViewOk, Abs, HeapInv, Owned, RangeFree, MappedRun, CanMap, Exact, Full;
      ghost var v := Abs(pager.m);
      SameRam(pager.m, pager.m);
      r := pager.MallocPage(pf, n);
      if r.Pages? {
        ghost var s := RunStart(v, pf, n);
        BackedMore(h, v, Abs(pager.m), pf, s, n, n);
        OwnedAfterMalloc(v, Abs(pager.m), pf, s, n, n);
        FreshRange(h, v, pf, s, n);
        RunAdded(v, Abs(pager.m), pf, n);
      } else if r.NoFrame? {
        ghost var s := RunStart(v, pf, n);
        ghost var k: nat :| k < n && MappedRun(Reserve(v, pf, n), Abs(pager.m), pf, s, k);
        BackedMore(h, v, Abs(pager.m), pf, s, n, k);
      }
    }

    method MallocLarge(size: nat) returns (r: Ptr)
      requires Ok() && size > 1024 && PagesFor(size) < 3840
      modifies this, pager
      ensures !r.Halt? && (r.Wild? ==> pf.User?)
      ensures !r.Wild? ==> Ok()
      ensures r.Null? ==> h == old(h)
      ensures LargeAnswer(Abs(old(pager.m)), pf, PagesFor(size), r)
      ensures r.At? ==> SameRest(old(h), Abs(old(pager.m)), h, Abs(pager.m))
      ensures r.At? ==> !Live(old(h), r.addr) && forall p :: Live(h, p) <==> Live(old(h), p) || p == r.addr
      ensures r.At? ==> ArenaOf(r.addr) in h.arenas && ArenaOk(h, ArenaOf(r.addr)) && Fits(size, Room(h, r.addr))
    {
      hide TablesOk, ViewOk, Abs, Live, ListsOk, Apart, CountIn, RangeFree, Owned, ArenaOf, RightsOk, CanMap, SameRest, PagesAdded, Covers;
      var pages := PagesFor(size);
      var t := TakePages(pages);
      if !t.Pages? {
        return if t.NoTable? then Wild else Null;
      }
      RestTaken(h, Abs(old(pager.m)), AddLarge(h, t.vaddr, pages), Abs(pager.m), t.vaddr, Large(pages));
      AddLargeInv(h, t.vaddr, pages);
      AddLargeLive(h, t.vaddr, pages);
      h := AddLarge(h, t.vaddr, pages);
      assert ArenaOk(h, t.vaddr);
      r := At(t.vaddr + ARENA_SIZE);
    }

    /** Cuts a fresh page into blocks; none of them is in the list before. */
    method NewArena(idx: nat) returns (r: PageResult)
      requires Ok() && idx < DESC_CNT && h.free[idx] == []
      modifies this, pager
      ensures r.NoTable? ==> pf.User?
      ensures r.Pages? <==> CanMap(Abs(old(pager.m)), pf, 1)
      ensures r.Pages? ==> FirstFit(Abs(old(pager.m)), pf, 1, r.vaddr)
      ensures !r.NoTable? && !r.Pages? ==> Ok() && h == old(h)
      ensures r.Pages? ==>
        && Valid(pager.m) && HeapInv(h) && Backed(h, Abs(pager.m), pf)
        && h == AddArena(old(h), r.vaddr, idx) && SameLive(old(h), h)
        && AllUsedBut(h, r.vaddr) && r.vaddr % 4096 == 0
      ensures r.Pages? ==> SameRest(old(h), Abs(old(pager.m)), h, Abs(pager.m))
    {
      hide TablesOk, ViewOk, Abs, Live, ListsOk, Apart, CountIn, RangeFree, Owned, ArenaOf, RightsOk, CanMap, SameRest, PagesAdded, FirstFit, Covers;
      r := TakePages(1);
      if !r.Pages? {
        return;
      }
      var a := r.vaddr;
      var list := h.free[idx];
      BlocksFacts(a, idx, PerArena(idx));
      for j := 0 to PerArena(idx)
        invariant list == Blocks(a, idx, j)
      {
        assert Blocks(a, idx, PerArena(idx))[j] == BlockAt(a, idx, j);
        assert BlockAt(a, idx, j) !in list;
        list := list + [BlockAt(a, idx, j)];
      }
      AddArenaInv(h, a, idx);
      assert h.free[idx] + list == list;
      ghost var h0 := h;
      h := Store(h.arenas[a := Small(idx, PerArena(idx))], h.free[idx := list]);
      RestTaken(h0, Abs(old(pager.m)), h, Abs(pager.m), a, Small(idx, PerArena(idx)));
      assert forall b :: b in h0.arenas ==> ArenaOk(h0, b);
      assert forall b :: b in h.arenas ==> ArenaOk(h, b);
    }

    /** The least class that fits. */
    method ClassFor(size: nat) returns (idx: nat)
      requires 0 < size <= 1024
      ensures LeastFit(size, idx) && Fits(size, BlockSize(idx))
    {
      idx := 0;
      while size > BlockSize(idx)
        invariant idx < DESC_CNT && (idx == 0 || BlockSize(idx) < 2 * size)
        invariant forall i :: 0 <= i < idx ==> BlockSize(i) < size
        decreases DESC_CNT - idx
      {
        idx := idx + 1;
      }
    }

    method MallocSmall(size: nat) returns (r: Ptr)
      requires Ok() && 0 < size <= 1024
      modifies this, pager
      ensures !r.Halt? && (r.Wild? ==> pf.User?)
      ensures !r.Wild? ==> Ok()
      ensures r.Null? ==> h == old(h)
      ensures SmallAnswer(old(h), Abs(old(pager.m)), pf, size, r)
      ensures r.At? ==> SameRest(old(h), Abs(old(pager.m)), h, Abs(pager.m))
      ensures r.At? ==> !Live(old(h), r.addr) && forall p :: Live(h, p) <==> Live(old(h), p) || p == r.addr
      ensures r.At? ==> ArenaOf(r.addr) in h.arenas && ArenaOk(h, ArenaOf(r.addr)) && Fits(size, Room(h, r.addr))
    {
      hide TablesOk, ViewOk, Abs, Live, ListsOk, Apart, CountIn, Owned, ArenaOf, BlockSize, Fits, BlockAt, PerArena, RightsOk, CanMap;
      var idx := ClassFor(size);
      if h.free[idx] == [] {
        var t := NewArena(idx);
        if !t.Pages? {
          return if t.NoTable? then Wild else Null;
        }
        FirstBlock(t.vaddr, idx);
      }
      PopBlockInv(h, idx);
      PopBlockLive(h, idx);
      UsedAfterPop(h, idx);
      var b := h.free[idx][0];
      RestKept(h, Abs(pager.m), PopBlock(h, idx), Abs(pager.m));
      h := PopBlock(h, idx);
      assert ArenaOk(h, ArenaOf(b));
      r := At(b);
    }

    /** sys_malloc. A returned pointer is new, large enough, and the only change
        to what is live; on failure nothing becomes live or dead. A size that
        needs 3840 pages or more, yet is below the pool's, trips an assertion. */
    method Malloc(size: nat) returns (r: Ptr)
      requires Ok()
      modifies this, pager
      ensures r.Halt? <==> 1024 < size < poolSize && PagesFor(size) >= 3840
      ensures r.Halt? ==> h == old(h) && pager.m == old(pager.m)
      ensures r.Wild? ==> pf.User?
      ensures !r.Wild? ==> Ok()
      ensures Answer(old(h), Abs(old(pager.m)), pf, poolSize, size, r)
      ensures r.At? || r.Halt? || (r.Null? && (size == 0 || size >= poolSize)) ==> SameRest(old(h), Abs(old(pager.m)), h, Abs(pager.m))
      ensures r.Null? ==> SameLive(old(h), h)
      ensures r.At? ==> !Live(old(h), r.addr) && forall p :: Live(h, p) <==> Live(old(h), p) || p == r.addr
      ensures r.At? ==> ArenaOf(r.addr) in h.arenas && ArenaOk(h, ArenaOf(r.addr)) && Fits(size, Room(h, r.addr))
    {
      hide TablesOk, ViewOk, Abs, Live, Backed, RightsOk, SmallAnswer, LargeAnswer, Covers;
      if size == 0 || size >= poolSize {
        return Null;
      }
      if size > 1024 {
        if PagesFor(size) >= 3840 {
          return Halt;
        }
        r := MallocLarge(size);
      } else {
        r := MallocSmall(size);
      }
    }

    /** Any script of requests and releases, up to a failed assertion. Each
        request is answered from what is free then. What is held is exactly what
        is live, so it never overlaps; holding nothing, the heap owns no page, and
        the pages mapped are those mapped before, unless a request that was in
        range found no pages. */
    method Run(script: seq<Request>) returns (held: set<nat>, wild: bool, short: bool, rs: seq<Ptr>, ghost trail: seq<HeapState>)
      requires Ok() && forall p :: !Live(h, p)
      modifies this, pager
      ensures wild ==> pf.User?
      ensures ServedAll(trail, pf, poolSize, script, rs) && trail[0] == HeapState(old(h), Abs(old(pager.m)))
      ensures !wild ==> |rs| == |script| || (rs != [] && rs[|rs| - 1].Halt?)
      ensures !wild ==> Ok() && trail[|rs|] == HeapState(h, Abs(pager.m)) && forall p :: Live(h, p) <==> p in held
      ensures !wild ==> forall p, q :: p in held && q in held && p != q ==> ApartAt(h, p, q)
      ensures short ==> RanShort(poolSize, script, rs)
      ensures !wild && held == {} ==> h.arenas == map[] && (!short ==> Abs(pager.m).pages.Keys == Abs(old(pager.m)).pages.Keys)
    {
      hide TablesOk, ViewOk, Abs, Live, ListsOk, ArenaOk, Apart, AllUsed, Owned, Backed, ApartAt, RightsOk, Answer, Covers, RanShort;
      held, wild, short, rs, trail := {}, false, false, [], [HeapState(h, Abs(pager.m))];
      NothingHeld(h);
      for i := 0 to |script|
        invariant !wild && Ok() && forall p :: Live(h, p) <==> p in held
        invariant !short ==> SameRest(old(h), Abs(old(pager.m)), h, Abs(pager.m))
        invariant short ==> RanShort(poolSize, script, rs)
        invariant |rs| == i && ServedAll(trail, pf, poolSize, script, rs)
        invariant trail[0] == HeapState(old(h), Abs(old(pager.m))) && trail[i] == HeapState(h, Abs(pager.m))
      {
        ghost var was := HeapState(h, Abs(pager.m));
        var r := Null;
        match script[i] {
          case Alloc(size) =>
            r := Malloc(size);
            if r.Wild? {
              return held, true, short, rs, trail;
            } else if r.At? {
              held := held + {r.addr};
            }
          case Release(ptr) =>
            if ptr in held {
              Free(ptr);
              held := held - {ptr};
            }
        }
        assert Served(was, HeapState(h, Abs(pager.m)), pf, poolSize, script[i], r);
        ServedMore(trail, pf, poolSize, script, rs, HeapState(h, Abs(pager.m)), r);
        ShortMore(poolSize, script, rs, r);
        trail, rs := trail + [HeapState(h, Abs(pager.m))], rs + [r];
        if r.Null? && script[i].Alloc? && 0 < script[i].size < poolSize {
          short := true;
        }
        if r.Halt? {
          break;
        }
      }
      forall p, q | p in held && q in held && p != q
        ensures ApartAt(h, p, q)
      {
        LiveApartAt(h, p, q);
      }
      if held == {} {
        NothingHeld(h);
        if !wild && !short { NothingLeaked(old(h), Abs(old(pager.m)), h, Abs(pager.m)); }
      }
    }

    /** The reclaim loop of sys_free: every block of an entirely free arena is
        found in the list and taken out. */
    method Reclaim(a: nat)
      requires Valid(pager.m) && HeapInv(h) && Backed(h, Abs(pager.m), pf) && AllUsedBut(h, a)
      requires a in h.arenas && h.arenas[a].Small? && ArenaOk(h, a) && h.arenas[a].cnt == PerArena(h.arenas[a].idx)
      modifies this, pager
      ensures Ok() && SameLive(old(h), h) && a !in h.arenas
      ensures SameRest(old(h), Abs(old(pager.m)), h, Abs(pager.m))
    {
      hide TablesOk, ViewOk, Abs, Live, ListsOk, Apart, CountIn, Owned, ArenaOf, BlockAt, PerArena, Purge, Remove;
      var idx := h.arenas[a].idx;
      ListInArena(h, a);
      FreeListFacts(h, idx);
      FullArena(h.free[idx], a, idx);
      PurgeAll(h.free[idx], a, idx);
      var list := h.free[idx];
      ghost var all := list;
      for j := 0 to PerArena(idx)
        invariant h == old(h) && pager.m == old(pager.m)
        invariant list == Purge(all, a, BlockAt(a, idx, j))
      {
        RemoveNext(all, a, idx, j);
        assert BlockAt(a, idx, j) in list;
        list := Remove(list, BlockAt(a, idx, j));
      }
      DropArenaInv(h, a);
      DropArenaLive(h, a);
      ghost var h0, v0 := h, Abs(pager.m);
      h := Store(h.arenas - {a}, h.free[idx := list]);
      pager.MfreePage(pf, a, 1);
      BackedLess(h0, v0, Abs(pager.m), pf, a);
      RestGiven(h0, v0, h, Abs(pager.m), a);
      assert forall b :: b in h.arenas ==> ArenaOk(h, b);
    }

    /** sys_free of a live pointer: it and nothing else stops being live, and an
        arena left without live blocks gives its page back. */
    method Free(ptr: nat)
      requires Ok() && Live(h, ptr)
      modifies this, pager
      ensures Ok() && forall p :: Live(h, p) <==> Live(old(h), p) && p != ptr
      ensures SameRest(old(h), Abs(old(pager.m)), h, Abs(pager.m))
      ensures FreedTo(old(h), h, ptr)
    {
      hide TablesOk, ViewOk, Abs, Live, ListsOk, Apart, CountIn, Owned, ArenaOf;
      LiveInArena(h, ptr);
      var a := ArenaOf(ptr);
      ghost var h0, v0 := h, Abs(pager.m);
      if h.arenas[a].Large? {
        DropLargeInv(h, a);
        LargePtr(h, ptr);
        var cnt := h.arenas[a].cnt;
        h := DropLarge(h, a);
        pager.MfreePage(pf, a, cnt);
        BackedLess(h0, v0, Abs(pager.m), pf, a);
        RestGiven(h0, v0, h, Abs(pager.m), a);
        assert forall b :: b in h.arenas ==> ArenaOk(h, b);
      } else {
        PushBlockInv(h, ptr);
        PushBlockLive(h, ptr);
        h := PushBlock(h, ptr);
        RestKept(h0, v0, h, Abs(pager.m));
        assert forall b :: b in h.arenas ==> ArenaOk(h, b);
        assert Backed(h, Abs(pager.m), pf);
        var idx := h.arenas[a].idx;
        if h.arenas[a].cnt == PerArena(idx) {
          Reclaim(a);
        } else {
          FreeListFacts(h, idx);
          ListInArena(h, a);
          FullArena(h.free[idx], a, idx);
        }
      }
    }
  }

  lemma FirstBlock(a: nat, idx: nat)
    requires a % 4096 == 0 && idx < DESC_CNT
    ensures PerArena(idx) >= 1 && ArenaOf(Blocks(a, idx, PerArena(idx))[0]) == a
    ensures Blocks(a, idx, PerArena(idx))[0] == a + ARENA_SIZE
  {
    BlockInArena(a, idx, 0);
  }

  lemma FreeListFacts(h: Store, idx: nat)
    requires HeapInv(h) && idx < DESC_CNT
    ensures NoDup(h.free[idx])
  {
  }

  lemma LargePtr(h: Store, p: nat)
    requires HeapInv(h) && Live(h, p) && ArenaOf(p) in h.arenas && h.arenas[ArenaOf(p)].Large?
    ensures p == ArenaOf(p) + ARENA_SIZE
  {
  }
}
