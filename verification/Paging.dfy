/** kernel/memory.c, pages: virtual address pools, physical frame pools and the
    self-mapped two-level page table of 32-bit paging (section 4.3 of the Intel
    SDM, volume 3A). Every access to a page table goes through the MMU walk, as
    in the kernel. Masks of aligned powers of two are written as division and
    remainder; page and frame numbers are addresses divided by 4096. */
module Paging {
  import opened Common
  import opened Bitmaps

  datatype Flag = Kernel | User

  /** struct pool: one bit per frame, from frame `base` on. */
  datatype Pool = Pool(bits: seq<bool>, base: nat)

  /** struct virtual_addr: one bit per page, from page `start` on. */
  datatype Space = Space(bits: seq<bool>, start: nat)

  /** The machine as memory.c sees it: RAM by frame, each frame 1024 words, the
      frame of the active page directory, the two frame pools, and the kernel's
      and the running process's address pools. */
  datatype Mem = Mem(ram: seq<seq<nat>>, cr3: nat, kpool: Pool, upool: Pool, kspace: Space, uspace: Space) {
    function PoolOf(pf: Flag): Pool { if pf.Kernel? then kpool else upool }

    function SpaceOf(pf: Flag): Space { if pf.Kernel? then kspace else uspace }

    function WithPool(pf: Flag, bits: seq<bool>): Mem {
      if pf.Kernel? then this.(kpool := kpool.(bits := bits)) else this.(upool := upool.(bits := bits))
    }

    function WithSpace(pf: Flag, bits: seq<bool>): Mem {
      if pf.Kernel? then this.(kspace := kspace.(bits := bits)) else this.(uspace := uspace.(bits := bits))
    }
  }

  const PG_SIZE := 4096
  const PAGES := 1023 * 1024      // pages below the self-map window
  const LOW := 1024               // pages of directory slot 0
  const STACK := 0xbffff          // the user stack's page, the last one below the kernel

  // ---- address arithmetic -------------------------------------------------

  function PdeIdx(va: nat): nat { va / 0x400000 }

  function PteIdx(va: nat): nat { va / 4096 % 1024 }

  function PdePtr(va: nat): nat { 0xfffff000 + PdeIdx(va) * 4 }

  function PtePtr(va: nat): nat { 0xffc00000 + PdeIdx(va) * 4096 + PteIdx(va) * 4 }

  predicate Present(w: nat) { w % 2 == 1 }

  function FrameOf(w: nat): nat { w / 4096 }

  // ---- the MMU ------------------------------------------------------------

  /** A word of physical memory. */
  datatype Loc = Loc(frame: nat, word: nat)

  predicate RamOk(ram: seq<seq<nat>>, cr3: nat) {
    && cr3 < |ram|
    && forall f :: 0 <= f < |ram| ==> |ram[f]| == 1024
  }

  /** The two-level walk for the word at virtual address `va`; None is a fault. */
  function Walk(ram: seq<seq<nat>>, cr3: nat, va: nat): (r: Option<Loc>)
    requires RamOk(ram, cr3) && va < 0x1_0000_0000
    ensures r.Some? ==> r.value.frame < |ram| && r.value.word < 1024
  {
    var pde := ram[cr3][PdeIdx(va)];
    if !Present(pde) || FrameOf(pde) >= |ram| then None else
    var pte := ram[FrameOf(pde)][PteIdx(va)];
    if !Present(pte) || FrameOf(pte) >= |ram| then None else
    Some(Loc(FrameOf(pte), va % 4096 / 4))
  }

  /** PG_P_1, PG_RW_W and PG_US_U: present, writable, open to user mode. */
  predicate Rights(w: nat) { w % 8 == 7 }

  /** The walk for a write in user mode, which asks for all three bits at both levels. */
  function UserWalk(ram: seq<seq<nat>>, cr3: nat, va: nat): (r: Option<Loc>)
    requires RamOk(ram, cr3) && va < 0x1_0000_0000
  {
    var pde := ram[cr3][PdeIdx(va)];
    if !Rights(pde) || FrameOf(pde) >= |ram| then None else
    var pte := ram[FrameOf(pde)][PteIdx(va)];
    if !Rights(pte) || FrameOf(pte) >= |ram| then None else
    Some(Loc(FrameOf(pte), va % 4096 / 4))
  }

  function Peek(m: Mem, va: nat): nat
    requires RamOk(m.ram, m.cr3) && va < 0x1_0000_0000 && Walk(m.ram, m.cr3, va).Some?
  {
    var l := Walk(m.ram, m.cr3, va).value;
    m.ram[l.frame][l.word]
  }

  function Poke(m: Mem, va: nat, w: nat): Mem
    requires RamOk(m.ram, m.cr3) && va < 0x1_0000_0000 && Walk(m.ram, m.cr3, va).Some?
  {
    var l := Walk(m.ram, m.cr3, va).value;
    StoreAt(m, l.frame, l.word, w)
  }

  function StoreAt(m: Mem, f: nat, i: nat, w: nat): Mem
    requires f < |m.ram| && i < |m.ram[f]|
  {
    var row: seq<nat> := m.ram[f][i := w];
    m.(ram := m.ram[f := row])
  }

  // ---- what the tables mean -----------------------------------------------

  function Pde(m: Mem, i: nat): nat
    requires RamOk(m.ram, m.cr3) && i < 1024
  {
    m.ram[m.cr3][i]
  }

  /** The directory maps itself in its last slot; every other present slot names
      a table frame of its own, except that slot 0, where it is present, shares
      the table of slot 768: the loader sets the kernel's directory up so, and
      the directories of processes leave slot 0 empty. */
  ghost predicate TablesOk(m: Mem) {
    && RamOk(m.ram, m.cr3)
    && Pde(m, 1023) == m.cr3 * 4096 + 7
    && (forall i :: 0 <= i < 1023 && Present(Pde(m, i)) ==>
          FrameOf(Pde(m, i)) < |m.ram| && FrameOf(Pde(m, i)) != m.cr3)
    && (forall i, j :: 1 <= i < 1023 && 1 <= j < 1023 && i != j && Present(Pde(m, i)) && Present(Pde(m, j)) ==>
          FrameOf(Pde(m, i)) != FrameOf(Pde(m, j)))
    && (Present(Pde(m, 0)) ==> Present(Pde(m, 768)) && FrameOf(Pde(m, 0)) == FrameOf(Pde(m, 768)))
  }

  /** Pages `p` and `q` have one entry between them: the same page, or a page of
      the first 4 MB and the kernel page 3 GB above it. */
  predicate OneEntry(m: Mem, p: nat, q: nat)
    requires RamOk(m.ram, m.cr3)
  {
    p == q || (Present(Pde(m, 0)) && ((p < LOW && q == p + 0xc0000) || (q < LOW && p == q + 0xc0000)))
  }

  /** The page-table entry of page `p`, 0 where it has no table. */
  function Entry(m: Mem, p: nat): nat
    requires TablesOk(m) && p < PAGES
  {
    var pde := Pde(m, p / 1024);
    if Present(pde) then m.ram[FrameOf(pde)][p % 1024] else 0
  }

  /** The self-map: pde_ptr reaches the directory entry, pte_ptr the true
      page-table entry, for every address, whatever the tables hold. */
  lemma SelfMap(m: Mem, va: nat)
    requires TablesOk(m) && va < 0x1_0000_0000
    ensures PdePtr(va) < 0x1_0000_0000 && PtePtr(va) < 0x1_0000_0000
    ensures Walk(m.ram, m.cr3, PdePtr(va)) == Some(Loc(m.cr3, PdeIdx(va)))
    ensures Walk(m.ram, m.cr3, PtePtr(va)) ==
            if Present(Pde(m, PdeIdx(va))) then Some(Loc(FrameOf(Pde(m, PdeIdx(va))), PteIdx(va))) else None
  {
    hide PdeIdx, PteIdx, PdePtr, PtePtr;
    PtrDigits(va);
    assert Present(m.cr3 * 4096 + 7) && FrameOf(m.cr3 * 4096 + 7) == m.cr3;
  }

  /** Where the two pointers lead in the directory and the tables. */
  lemma PtrDigits(va: nat)
    requires va < 0x1_0000_0000
    ensures PdePtr(va) < 0x1_0000_0000 && PtePtr(va) < 0x1_0000_0000 && PdeIdx(va) < 1024 && PteIdx(va) < 1024
    ensures PdeIdx(PdePtr(va)) == 1023 && PteIdx(PdePtr(va)) == 1023 && PdePtr(va) % 4096 / 4 == PdeIdx(va)
    ensures PdeIdx(PtePtr(va)) == 1023 && PteIdx(PtePtr(va)) == PdeIdx(va) && PtePtr(va) % 4096 / 4 == PteIdx(va)
  {
    var i, j := PdeIdx(va), PteIdx(va);
    Digits(1023, 1023, i);
    Digits(1023, i, j);
    assert PdePtr(va) == 1023 * 0x400000 + 1023 * 4096 + i * 4;
    assert PtePtr(va) == 1023 * 0x400000 + i * 4096 + j * 4;
  }

  lemma Digits(i: nat, j: nat, k: nat)
    requires i < 1024 && j < 1024 && k < 1024
    ensures var va := i * 0x400000 + j * 4096 + k * 4;
            va < 0x1_0000_0000 && PdeIdx(va) == i && PteIdx(va) == j && va % 4096 / 4 == k
  {
    var va := i * 0x400000 + j * 4096 + k * 4;
    assert va / 4096 == i * 1024 + j;
  }

  /** Storing page `p`'s entry through its table changes that entry and, in the
      kernel's directory, that of its alias, and no other. */
  lemma StoreEntry(m: Mem, p: nat, w: nat)
    requires TablesOk(m) && p < PAGES && Present(Pde(m, p / 1024))
    ensures var m' := StoreAt(m, FrameOf(Pde(m, p / 1024)), p % 1024, w);
            && TablesOk(m')
            && (forall i :: 0 <= i < 1024 ==> Pde(m', i) == Pde(m, i))
            && (forall q :: 0 <= q < PAGES ==> Entry(m', q) == if OneEntry(m, p, q) then w else Entry(m, q))
  {
    var t := FrameOf(Pde(m, p / 1024));
    var m' := StoreAt(m, t, p % 1024, w);
    assert m'.ram[m.cr3] == m.ram[m.cr3];
    assert forall i :: 0 <= i < 1024 ==> Pde(m', i) == Pde(m, i);
    forall q | 0 <= q < PAGES
      ensures Entry(m', q) == if OneEntry(m, p, q) then w else Entry(m, q)
    {
      if Present(Pde(m, q / 1024)) {
        SameTable(m, p, q);
      }
    }
  }

  /** Two pages find their entries in the same word exactly when they share one. */
  lemma SameTable(m: Mem, p: nat, q: nat)
    requires TablesOk(m) && p < PAGES && q < PAGES && Present(Pde(m, p / 1024)) && Present(Pde(m, q / 1024))
    ensures FrameOf(Pde(m, p / 1024)) == FrameOf(Pde(m, q / 1024)) && p % 1024 == q % 1024 <==> OneEntry(m, p, q)
  {
    var i, j := p / 1024, q / 1024;
    assert p == 1024 * i + p % 1024 && q == 1024 * j + q % 1024;
    if i != j && i != 0 && j != 0 {
      assert FrameOf(Pde(m, i)) != FrameOf(Pde(m, j));
    } else if i != j && i + j != 768 {
      assert FrameOf(Pde(m, 768)) != FrameOf(Pde(m, i + j));
    }
  }

  /** In the kernel's directory the first 4 MB always repeat the kernel's first 4 MB. */
  lemma LowPages(m: Mem, q: nat)
    requires TablesOk(m) && Present(Pde(m, 0)) && q < LOW
    ensures Entry(m, q) == Entry(m, q + 0xc0000) && OneEntry(m, q, q + 0xc0000)
  {
  }

  function Zeros(): (z: seq<nat>)
    ensures |z| == 1024
  {
    seq(1024, i => 0)
  }

  /** Hanging a zeroed frame under an empty directory slot changes no entry. */
  lemma NewTable(m: Mem, i: nat, t: nat)
    requires TablesOk(m) && 1 <= i < 1023 && !Present(Pde(m, i))
    requires t < |m.ram| && t != m.cr3
    requires forall j :: 0 <= j < 1023 && Present(Pde(m, j)) ==> FrameOf(Pde(m, j)) != t
    ensures var m1 := StoreAt(m, m.cr3, i, t * 4096 + 7);
            var m' := m1.(ram := m1.ram[t := Zeros()]);
            && TablesOk(m1) && TablesOk(m')
            && (forall j :: 0 <= j < 1024 ==> Pde(m1, j) == Pde(m', j) == if j == i then t * 4096 + 7 else Pde(m, j))
            && (forall q :: 0 <= q < PAGES ==> Entry(m', q) == Entry(m, q))
  {
    var m1 := StoreAt(m, m.cr3, i, t * 4096 + 7);
    var m' := m1.(ram := m1.ram[t := Zeros()]);
    assert Present(t * 4096 + 7) && FrameOf(t * 4096 + 7) == t;
    assert forall j :: 0 <= j < 1024 ==> Pde(m1, j) == if j == i then t * 4096 + 7 else Pde(m, j);
    assert m'.ram[m.cr3] == m1.ram[m.cr3];
    assert forall j :: 0 <= j < 1024 ==> Pde(m', j) == Pde(m1, j);
    forall q | 0 <= q < PAGES
      ensures Entry(m', q) == Entry(m, q)
    {
      if q / 1024 != i && Present(Pde(m, q / 1024)) {
        assert FrameOf(Pde(m, q / 1024)) != t;
      }
    }
  }

  // ---- the three records of "in use" agree --------------------------------

  /** What the tables amount to: table frame by directory slot, frame by mapped
      page, beside the two pools and the two address pools. The first 4 MB, where
      they are mapped at all, repeat the kernel's and are left out. */
  datatype View = View(frames: nat, cr3: nat, tables: map<nat, nat>, pages: map<nat, nat>,
                       kpool: Pool, upool: Pool, kspace: Space, uspace: Space) {
    function PoolOf(pf: Flag): Pool { if pf.Kernel? then kpool else upool }

    function SpaceOf(pf: Flag): Space { if pf.Kernel? then kspace else uspace }

    function WithPool(pf: Flag, bits: seq<bool>): View {
      if pf.Kernel? then this.(kpool := kpool.(bits := bits)) else this.(upool := upool.(bits := bits))
    }

    function WithSpace(pf: Flag, bits: seq<bool>): View {
      if pf.Kernel? then this.(kspace := kspace.(bits := bits)) else this.(uspace := uspace.(bits := bits))
    }
  }

  ghost function Abs(m: Mem): View
    requires TablesOk(m)
  {
    View(|m.ram|, m.cr3,
         map i: nat | 1 <= i < 1023 && Present(Pde(m, i)) :: FrameOf(Pde(m, i)),
         map p: nat | LOW <= p < PAGES && Present(Entry(m, p)) :: FrameOf(Entry(m, p)),
         m.kpool, m.upool, m.kspace, m.uspace)
  }

  /** The view of `m'` when its directory and its entries are known. */
  lemma AbsPages(m: Mem, m': Mem, p: nat, w: nat)
    requires TablesOk(m) && TablesOk(m') && |m'.ram| == |m.ram| && m' == m.(ram := m'.ram)
    requires forall i :: 0 <= i < 1024 ==> Pde(m', i) == Pde(m, i)
    requires forall q :: LOW <= q < PAGES ==> Entry(m', q) == if q == p then w else Entry(m, q)
    requires LOW <= p < PAGES
    ensures Abs(m') == Abs(m).(pages := if Present(w) then Abs(m).pages[p := FrameOf(w)] else Abs(m).pages - {p})
  {
    hide TablesOk, Entry, Pde, Present, FrameOf;
    assert Abs(m').tables == Abs(m).tables;
    assert Abs(m').pages == if Present(w) then Abs(m).pages[p := FrameOf(w)] else Abs(m).pages - {p};
  }

  lemma StorePage(m: Mem, p: nat, w: nat)
    requires TablesOk(m) && LOW <= p < PAGES && Present(Pde(m, p / 1024))
    ensures var m' := StoreAt(m, FrameOf(Pde(m, p / 1024)), p % 1024, w);
            && TablesOk(m')
            && Abs(m') == Abs(m).(pages := if Present(w) then Abs(m).pages[p := FrameOf(w)] else Abs(m).pages - {p})
  {
    hide Abs, Entry;
    StoreEntry(m, p, w);
    AbsPages(m, StoreAt(m, FrameOf(Pde(m, p / 1024)), p % 1024, w), p, w);
  }

  lemma StoreTable(m: Mem, i: nat, t: nat)
    requires TablesOk(m) && 1 <= i < 1023 && !Present(Pde(m, i))
    requires t < |m.ram| && t != m.cr3 && forall j :: j in Abs(m).tables ==> Abs(m).tables[j] != t
    ensures var m1 := StoreAt(m, m.cr3, i, t * 4096 + 7);
            var m' := m1.(ram := m1.ram[t := Zeros()]);
            && TablesOk(m1) && TablesOk(m') && (RightsOk(m) ==> RightsOk(m')) && Pde(m1, i) == t * 4096 + 7
            && Abs(m') == Abs(m).(tables := Abs(m).tables[i := t])
  {
    forall j | 0 <= j < 1023 && Present(Pde(m, j))
      ensures FrameOf(Pde(m, j)) != t
    {
      assert (if j == 0 then 768 else j) in Abs(m).tables;
    }
    NewTable(m, i, t);
    assert Present(t * 4096 + 7) && FrameOf(t * 4096 + 7) == t;
    var m1 := StoreAt(m, m.cr3, i, t * 4096 + 7);
    AbsTables(m, m1.(ram := m1.ram[t := Zeros()]), i, t * 4096 + 7);
    FullRights(t * 4096);
  }

  lemma AbsTables(m: Mem, m': Mem, i: nat, w: nat)
    requires TablesOk(m) && TablesOk(m') && |m'.ram| == |m.ram| && m' == m.(ram := m'.ram)
    requires 1 <= i < 1023 && Present(w)
    requires forall j :: 0 <= j < 1024 ==> Pde(m', j) == if j == i then w else Pde(m, j)
    requires forall q :: 0 <= q < PAGES ==> Entry(m', q) == Entry(m, q)
    ensures Abs(m') == Abs(m).(tables := Abs(m).tables[i := FrameOf(w)])
  {
    hide TablesOk, Entry, Pde, Present, FrameOf;
    assert Abs(m').tables == Abs(m).tables[i := FrameOf(w)];
    assert Abs(m').pages == Abs(m).pages;
  }

  predicate InPool(pool: Pool, f: nat) { pool.base <= f < pool.base + |pool.bits| }

  predicate Taken(pool: Pool, f: nat) { InPool(pool, f) && pool.bits[f - pool.base] }

  ghost predicate Full(pool: Pool) { forall f: nat :: InPool(pool, f) ==> Taken(pool, f) }

  /** `f` cannot be handed out by either pool. */
  predicate Reserved(v: View, f: nat) {
    (InPool(v.kpool, f) ==> Taken(v.kpool, f)) && (InPool(v.upool, f) ==> Taken(v.upool, f))
  }

  predicate Managed(s: Space, p: nat) { s.start <= p < s.start + |s.bits| }

  predicate Vbit(s: Space, p: nat)  { Managed(s, p) && s.bits[p - s.start] }

  /** Pools and address pools are where mem_pool_init and process creation put
      them; a kernel thread has no user pool. The bit of the stack page is set
      when the process starts and stays set. */
  predicate LayoutOk(v: View) {
    && 0x102 <= v.kpool.base && v.kpool.base + |v.kpool.bits| <= v.upool.base
    && v.upool.base + |v.upool.bits| <= v.frames
    && (v.uspace.bits == [] || (0x8048 <= v.uspace.start && v.uspace.start + |v.uspace.bits| <= 0xc0000))
    && (Managed(v.uspace, STACK) ==> Vbit(v.uspace, STACK))
    && 0xc0100 <= v.kspace.start && v.kspace.start + |v.kspace.bits| <= PAGES
  }

  /** The pool a page belongs to, by its address. */
  function FlagOf(p: nat): Flag { if p < 0xc0000 then User else Kernel }

  predicate PoolPage(v: View, p: nat) { p in v.pages && Managed(v.SpaceOf(FlagOf(p)), p) }

  /** A mapped page has its address bit set and a frame marked used in the pool
      it has to come from. */
  predicate PageOk(v: View, p: nat)
    requires p in v.pages
  {
    Vbit(v.SpaceOf(FlagOf(p)), p) && Taken(v.PoolOf(FlagOf(p)), v.pages[p])
  }

  /** Directory and tables are never handed out, and the kernel's tables all exist. */
  ghost predicate TablesKept(v: View) {
    && Reserved(v, v.cr3)
    && (forall i :: i in v.tables ==> Reserved(v, v.tables[i]))
    && (forall p: nat :: Managed(v.kspace, p) ==> p / 1024 in v.tables)
  }

  ghost predicate PagesOk(v: View) {
    forall p :: PoolPage(v, p) ==> PageOk(v, p)
  }

  /** One frame, one use. */
  ghost predicate OneToOne(v: View) {
    && (forall p, q :: PoolPage(v, p) && PoolPage(v, q) && p != q ==> v.pages[p] != v.pages[q])
    && (forall p, i :: PoolPage(v, p) && i in v.tables ==> v.pages[p] != v.tables[i])
  }

  ghost predicate ViewOk(v: View) {
    LayoutOk(v) && TablesKept(v) && PagesOk(v) && OneToOne(v)
  }

  /** Whatever is present is writable and open to user mode, the directory's entries and the tables'. */
  ghost predicate RightsOk(m: Mem)
    requires TablesOk(m)
  {
    && (forall i :: 0 <= i < 1024 && Present(Pde(m, i)) ==> Rights(Pde(m, i)))
    && (forall p :: 0 <= p < PAGES && Present(Entry(m, p)) ==> Rights(Entry(m, p)))
  }

  ghost predicate Valid(m: Mem) { TablesOk(m) && RightsOk(m) && ViewOk(Abs(m)) }

  /** A user-mode write to any address of page `p` reaches frame `f`, at the same offset. */
  ghost predicate Reaches(m: Mem, p: nat, f: nat)
    requires RamOk(m.ram, m.cr3)
  {
    forall va: nat :: va < 0x1_0000_0000 && va / 4096 == p ==> UserWalk(m.ram, m.cr3, va) == Some(Loc(f, va % 4096 / 4))
  }

  /** Such a write faults. */
  ghost predicate Faults(m: Mem, p: nat)
    requires RamOk(m.ram, m.cr3)
  {
    forall va: nat :: va < 0x1_0000_0000 && va / 4096 == p ==> UserWalk(m.ram, m.cr3, va) == None
  }

  /** User mode reaches the pages of the two address pools that are mapped, each
      in its own frame, and no others. */
  lemma UserReaches(m: Mem, pf: Flag, p: nat)
    requires Valid(m) && Managed(m.SpaceOf(pf), p)
    ensures p in Abs(m).pages ==> Reaches(m, p, Abs(m).pages[p])
    ensures p !in Abs(m).pages ==> Faults(m, p)
  {
    hide OneToOne, TablesKept, Rights;
    assert LOW <= p < PAGES && FlagOf(p) == pf;
    assert p in Abs(m).pages ==> PoolPage(Abs(m), p) && PageOk(Abs(m), p);
    RightsPresent(Pde(m, p / 1024));
    RightsPresent(Entry(m, p));
    forall va: nat | va < 0x1_0000_0000 && va / 4096 == p
      ensures UserWalk(m.ram, m.cr3, va) == if p in Abs(m).pages then Some(Loc(Abs(m).pages[p], va % 4096 / 4)) else None
    {
      assert PdeIdx(va) == p / 1024 && PteIdx(va) == p % 1024;
    }
  }

  lemma RightsPresent(w: nat)
    ensures Rights(w) ==> Present(w)
  {
  }

  /** User mode reaches every page of [s, s + n), in its frame. */
  ghost predicate RunReached(m: Mem, s: nat, n: nat)
    requires TablesOk(m)
  {
    forall p :: s <= p < s + n ==> p in Abs(m).pages && Reaches(m, p, Abs(m).pages[p])
  }

  lemma AllReached(m: Mem, v: View, pf: Flag, s: nat, n: nat)
    requires Valid(m) && MappedRun(v, Abs(m), pf, s, n)
    requires v.SpaceOf(pf).start <= s && s + n <= v.SpaceOf(pf).start + |v.SpaceOf(pf).bits|
    ensures RunReached(m, s, n)
  {
    hide ViewOk, TablesOk, RightsOk, Abs, Reaches, FreshFrame, HoldsFrame, OtherPoolKept;
    SameRam(m, m);
    forall p | s <= p < s + n ensures p in Abs(m).pages && Reaches(m, p, Abs(m).pages[p]) {
      UserReaches(m, pf, p);
    }
  }

  /** Storing an entry with full rights, or none, keeps them. */
  lemma RightsStore(m: Mem, p: nat, w: nat)
    requires TablesOk(m) && RightsOk(m) && p < PAGES && Present(Pde(m, p / 1024)) && (Present(w) ==> Rights(w))
    ensures var m' := StoreAt(m, FrameOf(Pde(m, p / 1024)), p % 1024, w);
            TablesOk(m') && RightsOk(m')
  {
    hide TablesOk, Entry, Pde, Present, Rights, FrameOf;
    StoreEntry(m, p, w);
  }

  /** No address bit is set without its page. */
  ghost predicate Exact(v: View) {
    forall pf: Flag, p: nat :: Vbit(v.SpaceOf(pf), p) ==> p in v.pages
  }

  /** A page that its owner may return: mapped, not the stack, and not the active directory. */
  predicate Owned(v: View, pf: Flag, p: nat) {
    Managed(v.SpaceOf(pf), p) && p in v.pages && p != STACK && v.pages[p] != v.cr3
  }

  /** Nobody's frame: not the directory, not a table, not under a pool page. */
  ghost predicate Unused(v: View, f: nat) {
    && f != v.cr3
    && (forall i :: i in v.tables ==> v.tables[i] != f)
    && (forall p :: PoolPage(v, p) ==> v.pages[p] != f)
  }

  lemma SpaceStep(v: View, pf: Flag, bits: seq<bool>)
    requires ViewOk(v) && |bits| == |v.SpaceOf(pf).bits|
    requires forall p :: p in v.pages && Managed(v.SpaceOf(pf), p) ==> bits[p - v.SpaceOf(pf).start]
    requires pf.User? && Managed(v.uspace, STACK) ==> bits[STACK - v.uspace.start]
    ensures ViewOk(v.WithSpace(pf, bits))
  {
    var v' := v.WithSpace(pf, bits);
    assert forall p: nat :: Managed(v'.kspace, p) <==> Managed(v.kspace, p);
    assert forall p :: PoolPage(v', p) <==> PoolPage(v, p);
    forall p | PoolPage(v', p)
      ensures PageOk(v', p)
    {
      assert PageOk(v, p);
    }
  }

  /** A frame fresh from a pool is nobody's. */
  lemma FrameStep(v: View, pf: Flag, k: nat)
    requires ViewOk(v) && k < |v.PoolOf(pf).bits| && !v.PoolOf(pf).bits[k]
    ensures var v' := v.WithPool(pf, v.PoolOf(pf).bits[k := true]);
            var f := v.PoolOf(pf).base + k;
            ViewOk(v') && Taken(v'.PoolOf(pf), f) && Unused(v', f) && f < v.frames
  {
    var v' := v.WithPool(pf, v.PoolOf(pf).bits[k := true]);
    var f := v.PoolOf(pf).base + k;
    assert !Reserved(v, f);
    assert forall g: nat :: Reserved(v, g) ==> Reserved(v', g);
    assert forall p :: PoolPage(v', p) <==> PoolPage(v, p);
    forall p | PoolPage(v, p)
      ensures PageOk(v', p) && v.pages[p] != f
    {
      assert PageOk(v, p);
    }
  }

  lemma MapStep(v: View, pf: Flag, p: nat, f: nat)
    requires ViewOk(v) && Vbit(v.SpaceOf(pf), p) && p !in v.pages
    requires Taken(v.PoolOf(pf), f) && Unused(v, f)
    ensures ViewOk(v.(pages := v.pages[p := f]))
  {
    hide PagesOk, OneToOne, TablesKept, Unused;
    MapPages(v, pf, p, f);
    MapTables(v, p, f);
    MapOnce(v, pf, p, f);
  }

  lemma MapPages(v: View, pf: Flag, p: nat, f: nat)
    requires LayoutOk(v) && PagesOk(v) && Vbit(v.SpaceOf(pf), p) && Taken(v.PoolOf(pf), f)
    ensures PagesOk(v.(pages := v.pages[p := f]))
  {
    var v' := v.(pages := v.pages[p := f]);
    forall q | PoolPage(v', q) ensures PageOk(v', q) {
      if q != p { assert PoolPage(v, q) && PageOk(v, q); }
    }
  }

  lemma MapTables(v: View, p: nat, f: nat)
    requires TablesKept(v)
    ensures TablesKept(v.(pages := v.pages[p := f]))
  {
    assert forall q :: Reserved(v, q) ==> Reserved(v.(pages := v.pages[p := f]), q);
  }

  lemma MapOnce(v: View, pf: Flag, p: nat, f: nat)
    requires OneToOne(v) && Unused(v, f) && p !in v.pages
    ensures OneToOne(v.(pages := v.pages[p := f]))
  {
    var v' := v.(pages := v.pages[p := f]);
    assert forall q :: PoolPage(v', q) ==> q == p || PoolPage(v, q);
  }

  lemma TableStep(v: View, i: nat, t: nat)
    requires ViewOk(v) && i !in v.tables && Taken(v.kpool, t) && Unused(v, t)
    ensures ViewOk(v.(tables := v.tables[i := t]))
  {
    var v' := v.(tables := v.tables[i := t]);
    assert forall q :: PoolPage(v', q) <==> PoolPage(v, q);
    assert forall q :: PoolPage(v, q) ==> PageOk(v, q) && PageOk(v', q);
    assert forall q :: Reserved(v, q) ==> Reserved(v', q);
  }

  lemma UnmapStep(v: View, pf: Flag, p: nat)
    requires ViewOk(v) && Owned(v, pf, p)
    ensures Taken(v.PoolOf(pf), v.pages[p])
    ensures ViewOk(v.WithPool(pf, v.PoolOf(pf).bits[v.pages[p] - v.PoolOf(pf).base := false]).(pages := v.pages - {p}))
  {
    assert PoolPage(v, p) && PageOk(v, p);
    UnmapTables(v, pf, p);
    UnmapPages(v, pf, p);
  }

  lemma UnmapTables(v: View, pf: Flag, p: nat)
    requires ViewOk(v) && Owned(v, pf, p) && PoolPage(v, p) && Taken(v.PoolOf(pf), v.pages[p])
    ensures TablesKept(v.WithPool(pf, v.PoolOf(pf).bits[v.pages[p] - v.PoolOf(pf).base := false]).(pages := v.pages - {p}))
  {
    hide PagesOk;
    var f := v.pages[p];
    var v' := v.WithPool(pf, v.PoolOf(pf).bits[f - v.PoolOf(pf).base := false]).(pages := v.pages - {p});
    forall g: nat | Reserved(v, g) && g != f
      ensures Reserved(v', g)
    {
    }
  }

  lemma UnmapPages(v: View, pf: Flag, p: nat)
    requires ViewOk(v) && Owned(v, pf, p) && PoolPage(v, p) && Taken(v.PoolOf(pf), v.pages[p])
    ensures var v' := v.WithPool(pf, v.PoolOf(pf).bits[v.pages[p] - v.PoolOf(pf).base := false]).(pages := v.pages - {p});
            PagesOk(v') && OneToOne(v') && LayoutOk(v')
  {
    hide TablesKept;
    var f := v.pages[p];
    var v' := v.WithPool(pf, v.PoolOf(pf).bits[f - v.PoolOf(pf).base := false]).(pages := v.pages - {p});
    forall q | PoolPage(v', q)
      ensures PoolPage(v, q) && PageOk(v', q)
    {
      assert PoolPage(v, q) && PageOk(v, q) && v.pages[q] != f;
    }
  }

  // ---- the allocator ------------------------------------------------------

  /** `v'` is `v` with page `p` of pool `pf` mapped onto a frame that was free;
      mapping a user page may also have taken kernel frames for page tables. */
  ghost predicate Mapped(v: View, v': View, pf: Flag, p: nat) {
    && p !in v.pages && p in v'.pages && v'.pages == v.pages[p := v'.pages[p]]
    && v'.frames == v.frames && v'.cr3 == v.cr3 && v'.kspace == v.kspace && v'.uspace == v.uspace
    && InPool(v.PoolOf(pf), v'.pages[p]) && !Taken(v.PoolOf(pf), v'.pages[p])
    && v'.PoolOf(pf) == v.PoolOf(pf).(bits := v.PoolOf(pf).bits[v'.pages[p] - v.PoolOf(pf).base := true])
    && OtherPoolKept(v, v', pf)
  }

  /** `v'` is `v` with directory slot `i` given a kernel frame that was free. */
  ghost predicate Tabled(v: View, v': View, i: nat) {
    && i in v'.tables && InPool(v.kpool, v'.tables[i]) && !Taken(v.kpool, v'.tables[i])
    && v' == v.(kpool := v.kpool.(bits := v.kpool.bits[v'.tables[i] - v.kpool.base := true]),
                tables := v.tables[i := v'.tables[i]])
  }

  lemma TabledKeeps(v: View, v': View, i: nat, pf: Flag, f: nat)
    requires LayoutOk(v) && Tabled(v, v', i) && Taken(v.PoolOf(pf), f) && Unused(v, f)
    ensures Taken(v'.PoolOf(pf), f) && Unused(v', f)
    ensures pf.User? ==> OtherPoolKept(v, v', pf)
  {
  }

  ghost predicate OtherPoolKept(v: View, v': View, pf: Flag) {
    && (pf.Kernel? ==> v'.upool == v.upool)
    && (pf.User? ==> v'.kpool.base == v.kpool.base && |v'.kpool.bits| == |v.kpool.bits|
                     && forall f: nat :: Taken(v.kpool, f) ==> Taken(v'.kpool, f))
  }

  /** `v'` is `v` with pages [s, s + n) of pool `pf` mapped onto frames that were
      free; in that pool exactly those frames have become used. */
  ghost predicate MappedRun(v: View, v': View, pf: Flag, s: nat, n: nat) {
    && v'.frames == v.frames && v'.cr3 == v.cr3 && v'.kspace == v.kspace && v'.uspace == v.uspace
    && (forall p :: p in v'.pages <==> p in v.pages || s <= p < s + n)
    && (forall p :: p in v.pages ==> v'.pages[p] == v.pages[p])
    && (forall p :: s <= p < s + n ==> p !in v.pages && FreshFrame(v, v', pf, p))
    && v'.PoolOf(pf).base == v.PoolOf(pf).base && |v'.PoolOf(pf).bits| == |v.PoolOf(pf).bits|
    && (forall f: nat :: Taken(v'.PoolOf(pf), f) <==> Taken(v.PoolOf(pf), f) || HoldsFrame(v', s, n, f))
    && OtherPoolKept(v, v', pf)
  }

  /** Fewer than `n` of the pages have been mapped. */
  ghost predicate PartRun(v: View, v': View, pf: Flag, s: nat, n: nat) {
    exists k: nat :: k < n && MappedRun(v, v', pf, s, k)
  }

  ghost predicate FreshFrame(v: View, v': View, pf: Flag, p: nat) {
    p in v'.pages && InPool(v.PoolOf(pf), v'.pages[p]) && !Taken(v.PoolOf(pf), v'.pages[p])
  }

  ghost predicate HoldsFrame(v: View, s: nat, n: nat, f: nat) {
    exists p :: s <= p < s + n && p in v.pages && v.pages[p] == f
  }

  // ---- what an allocation costs -------------------------------------------

  /** The directory slots of pages [s, s + n). */
  function Spanned(s: nat, n: nat): set<nat> {
    if n == 0 then {} else Spanned(s, n - 1) + {(s + n - 1) / 1024}
  }

  /** The page tables that mapping those pages calls for. */
  function Missing(v: View, s: nat, n: nat): set<nat> { Spanned(s, n) - v.tables.Keys }

  /** From directory slots `keys`, `pool` and `kernel` free frames to `keys'`,
      `pool'` and `kernel'` in mapping pages [s, s + n): one frame each and, for
      user pages, one kernel frame for each table that was missing. */
  predicate Spent(keys: set<nat>, keys': set<nat>, pool: nat, pool': nat, kernel: nat, kernel': nat, user: bool, s: nat, n: nat) {
    && keys' == keys + Spanned(s, n)
    && pool' == pool - n
    && (user ==> kernel' == kernel - |Spanned(s, n) - keys|)
  }

  ghost predicate Cost(v: View, v': View, pf: Flag, s: nat, n: nat) {
    Spent(v.tables.Keys, v'.tables.Keys, Free(v.PoolOf(pf).bits), Free(v'.PoolOf(pf).bits),
          Free(v.kpool.bits), Free(v'.kpool.bits), pf.User?, s, n)
  }

  lemma CostStep(v: View, v1: View, v2: View, pf: Flag, s: nat, k: nat)
    requires Cost(v, v1, pf, s, k) && Cost(v1, v2, pf, s + k, 1)
    ensures Cost(v, v2, pf, s, k + 1)
  {
    hide Free, Spent;
    SpentStep(v.tables.Keys, v1.tables.Keys, v2.tables.Keys,
              Free(v.PoolOf(pf).bits), Free(v1.PoolOf(pf).bits), Free(v2.PoolOf(pf).bits),
              Free(v.kpool.bits), Free(v1.kpool.bits), Free(v2.kpool.bits), pf.User?, s, k);
  }

  lemma SpentStep(keys: set<nat>, keys1: set<nat>, keys2: set<nat>, a: nat, a1: nat, a2: nat, b: nat, b1: nat, b2: nat, user: bool, s: nat, k: nat)
    requires Spent(keys, keys1, a, a1, b, b1, user, s, k) && Spent(keys1, keys2, a1, a2, b1, b2, user, s + k, 1)
    ensures Spent(keys, keys2, a, a2, b, b2, user, s, k + 1)
  {
    hide Spanned;
    SpannedStep(s, k);
    SpannedOne(s + k);
    Added(Spanned(s, k), keys, (s + k) / 1024);
  }

  /** A further slot is missing unless it is there or has been asked for already. */
  lemma Added(a: set<nat>, keys: set<nat>, i: nat)
    ensures |(a + {i}) - keys| == |a - keys| + |{i} - (keys + a)|
    ensures (keys + a) + {i} == keys + (a + {i})
  {
    assert (a + {i}) - keys == (a - keys) + ({i} - (keys + a));
  }

  lemma SpannedStep(s: nat, k: nat)
    ensures Spanned(s, k + 1) == Spanned(s, k) + {(s + k) / 1024}
  {
  }

  lemma SpannedOne(p: nat)
    ensures Spanned(p, 1) == {p / 1024}
  {
    SpannedStep(p, 0);
  }

  lemma {:induction false} SpannedMore(s: nat, k: nat, n: nat)
    requires k <= n
    ensures Spanned(s, k) <= Spanned(s, n)
  {
    if k < n {
      SpannedMore(s, k, n - 1);
    }
  }

  /** There is a run of addresses, a frame for each page, and a kernel frame for each missing table. */
  ghost predicate CanMap(v: View, pf: Flag, cnt: nat)
    requires 1 <= cnt
  {
    && FirstRun(v.SpaceOf(pf).bits, cnt) >= 0
    && cnt <= Free(v.PoolOf(pf).bits)
    && (pf.User? ==> |Missing(v, RunStart(v, pf, cnt), cnt)| <= Free(v.kpool.bits))
  }

  lemma MissingMore(v: View, s: nat, k: nat, n: nat)
    requires k < n && (s + k) / 1024 !in v.tables.Keys + Spanned(s, k)
    ensures |Missing(v, s, k)| < |Missing(v, s, n)|
  {
    hide Spanned;
    var i := (s + k) / 1024;
    SpannedMore(s, k + 1, n);
    SpannedStep(s, k);
    SubsetCard(Missing(v, s, k) + {i}, Missing(v, s, n));
  }

  /** An address marked for a page that was not mapped. */
  lemma NotExact(v: View, v': View, pf: Flag, s: nat, n: nat, k: nat)
    requires v.SpaceOf(pf).start <= s && s + n <= v.SpaceOf(pf).start + |v.SpaceOf(pf).bits| && k < n
    requires s + k !in v.pages && MappedRun(Opened(v, pf, s, n, true), v', pf, s, k)
    ensures !Exact(v')
  {
    hide Free;
    assert Vbit(v'.SpaceOf(pf), s + k) && s + k !in v'.pages;
  }

  lemma MappedNone(v: View, pf: Flag, s: nat)
    ensures MappedRun(v, v, pf, s, 0)
  {
  }

  lemma MappedSoFar(v: View, v': View, pf: Flag, s: nat, k: nat)
    requires MappedRun(v, v', pf, s, k)
    ensures v'.SpaceOf(pf) == v.SpaceOf(pf) && (s + k !in v.pages ==> s + k !in v'.pages)
  {
  }

  lemma MappedRunStep(v: View, v1: View, v2: View, pf: Flag, s: nat, k: nat)
    requires MappedRun(v, v1, pf, s, k) && Mapped(v1, v2, pf, s + k)
    ensures MappedRun(v, v2, pf, s, k + 1)
  {
    hide Taken, HoldsFrame, OtherPoolKept;
    MappedFresh(v, v1, v2, pf, s, k);
    MappedFrames(v, v1, v2, pf, s, k);
    KeptTwice(v, v1, v2, pf);
  }

  lemma KeptTwice(v: View, v1: View, v2: View, pf: Flag)
    requires OtherPoolKept(v, v1, pf) && OtherPoolKept(v1, v2, pf)
    ensures OtherPoolKept(v, v2, pf)
  {
  }

  lemma MappedFresh(v: View, v1: View, v2: View, pf: Flag, s: nat, k: nat)
    requires MappedRun(v, v1, pf, s, k) && Mapped(v1, v2, pf, s + k)
    ensures forall p :: s <= p < s + k + 1 ==> p !in v.pages && FreshFrame(v, v2, pf, p)
  {
    hide HoldsFrame, OtherPoolKept;
    assert forall p :: s <= p < s + k ==> FreshFrame(v, v1, pf, p);
    assert !Taken(v.PoolOf(pf), v2.pages[s + k]);
  }

  lemma MappedFrames(v: View, v1: View, v2: View, pf: Flag, s: nat, k: nat)
    requires MappedRun(v, v1, pf, s, k) && Mapped(v1, v2, pf, s + k)
    ensures forall f: nat :: Taken(v2.PoolOf(pf), f) <==> Taken(v.PoolOf(pf), f) || HoldsFrame(v2, s, k + 1, f)
  {
    hide OtherPoolKept, FreshFrame;
    forall f: nat
      ensures Taken(v2.PoolOf(pf), f) <==> Taken(v.PoolOf(pf), f) || HoldsFrame(v2, s, k + 1, f)
    {
      assert Taken(v2.PoolOf(pf), f) <==> Taken(v1.PoolOf(pf), f) || f == v2.pages[s + k];
      OneMoreHeld(v1, v2, s, k, f);
    }
  }

  lemma OneMoreHeld(v1: View, v2: View, s: nat, k: nat, f: nat)
    requires s + k !in v1.pages && s + k in v2.pages && v2.pages == v1.pages[s + k := v2.pages[s + k]]
    ensures HoldsFrame(v2, s, k + 1, f) <==> HoldsFrame(v1, s, k, f) || f == v2.pages[s + k]
  {
    if HoldsFrame(v1, s, k, f) {
      var p :| s <= p < s + k && p in v1.pages && v1.pages[p] == f;
      assert v2.pages[p] == f;
    }
  }

  /** `v'` is `v` with pages [s, s + n) of pool `pf` unmapped and their frames, no
      others, returned to the pool. */
  ghost predicate UnmappedRun(v: View, v': View, pf: Flag, s: nat, n: nat) {
    && v'.frames == v.frames && v'.cr3 == v.cr3 && v'.tables == v.tables
    && v'.kspace == v.kspace && v'.uspace == v.uspace
    && (forall p :: p in v'.pages <==> p in v.pages && !(s <= p < s + n))
    && (forall p :: p in v'.pages ==> v'.pages[p] == v.pages[p])
    && v'.PoolOf(pf).base == v.PoolOf(pf).base && |v'.PoolOf(pf).bits| == |v.PoolOf(pf).bits|
    && (forall f: nat :: Taken(v'.PoolOf(pf), f) <==> Taken(v.PoolOf(pf), f) && !HoldsFrame(v, s, n, f))
    && (pf.Kernel? ==> v'.upool == v.upool) && (pf.User? ==> v'.kpool == v.kpool)
  }

  /** One page returned. */
  function Unmapped(v: View, pf: Flag, p: nat): View
    requires p in v.pages && InPool(v.PoolOf(pf), v.pages[p])
  {
    v.WithPool(pf, v.PoolOf(pf).bits[v.pages[p] - v.PoolOf(pf).base := false]).(pages := v.pages - {p})
  }

  lemma UnmappedRunStep(v: View, v1: View, pf: Flag, s: nat, k: nat)
    requires UnmappedRun(v, v1, pf, s, k) && s + k in v1.pages && InPool(v1.PoolOf(pf), v1.pages[s + k])
    ensures UnmappedRun(v, Unmapped(v1, pf, s + k), pf, s, k + 1)
  {
    var v2 := Unmapped(v1, pf, s + k);
    forall f: nat
      ensures Taken(v2.PoolOf(pf), f) <==> Taken(v.PoolOf(pf), f) && !HoldsFrame(v, s, k + 1, f)
    {
      assert Taken(v2.PoolOf(pf), f) <==> Taken(v1.PoolOf(pf), f) && f != v1.pages[s + k];
      assert HoldsFrame(v, s, k + 1, f) <==> HoldsFrame(v, s, k, f) || f == v.pages[s + k];
    }
  }

  function Opened(v: View, pf: Flag, s: nat, n: nat, on: bool): View
    requires v.SpaceOf(pf).start <= s && s + n <= v.SpaceOf(pf).start + |v.SpaceOf(pf).bits|
  {
    v.WithSpace(pf, SetRange(v.SpaceOf(pf).bits, s - v.SpaceOf(pf).start, n, on))
  }

  /** What mfree_page does: the pages gone and their address bits clear. */
  ghost predicate FreedRun(v: View, v': View, pf: Flag, s: nat, n: nat) {
    && v.SpaceOf(pf).start <= s && s + n <= v.SpaceOf(pf).start + |v.SpaceOf(pf).bits|
    && UnmappedRun(Opened(v, pf, s, n, false), v', pf, s, n)
  }

  /** Returning an allocation restores the address pool, the frame pool and the
      mapping exactly; only page tables made on the way stay. */
  lemma FreeUndoesMalloc(v: View, v1: View, v2: View, pf: Flag, s: nat, n: nat)
    requires v.SpaceOf(pf).start <= s && ClearRun(v.SpaceOf(pf).bits, s - v.SpaceOf(pf).start, n)
    requires MappedRun(Opened(v, pf, s, n, true), v1, pf, s, n)
    requires FreedRun(v1, v2, pf, s, n)
    ensures v2.kspace == v.kspace && v2.uspace == v.uspace && v2.pages == v.pages
    ensures v2.PoolOf(pf) == v.PoolOf(pf)
  {
    var a, b := v.PoolOf(pf), v2.PoolOf(pf);
    forall i | 0 <= i < |a.bits|
      ensures a.bits[i] == b.bits[i]
    {
      var f := a.base + i;
      assert a.bits[i] == Taken(a, f) && b.bits[i] == Taken(b, f);
      if HoldsFrame(v1, s, n, f) {
        var p :| s <= p < s + n && p in v1.pages && v1.pages[p] == f;
        assert FreshFrame(Opened(v, pf, s, n, true), v1, pf, p);
      }
    }
    assert v2.SpaceOf(pf).bits == v.SpaceOf(pf).bits;
  }

  /** Where first fit puts `n` pages, and the address pool once they are marked. */
  function RunStart(v: View, pf: Flag, n: nat): nat
    requires 1 <= n && FirstRun(v.SpaceOf(pf).bits, n) >= 0
  {
    v.SpaceOf(pf).start + FirstRun(v.SpaceOf(pf).bits, n)
  }

  function Reserve(v: View, pf: Flag, n: nat): View
    requires 1 <= n && FirstRun(v.SpaceOf(pf).bits, n) >= 0
  {
    Opened(v, pf, RunStart(v, pf, n), n, true)
  }

  /** Clearing the address bits after the pages are gone. */
  lemma CloseStep(v: View, v': View, pf: Flag, s: nat, n: nat)
    requires ViewOk(v') && UnmappedRun(v, v', pf, s, n) && (pf.User? ==> !(s <= STACK < s + n))
    requires v.SpaceOf(pf).start <= s && s + n <= v.SpaceOf(pf).start + |v.SpaceOf(pf).bits|
    ensures ViewOk(Opened(v', pf, s, n, false))
    ensures FreedRun(v, Opened(v', pf, s, n, false), pf, s, n)
  {
    CloseView(v, v', pf, s, n);
    CloseRun(v, v', pf, s, n);
  }

  lemma CloseView(v: View, v': View, pf: Flag, s: nat, n: nat)
    requires ViewOk(v') && UnmappedRun(v, v', pf, s, n) && (pf.User? ==> !(s <= STACK < s + n))
    requires v.SpaceOf(pf).start <= s && s + n <= v.SpaceOf(pf).start + |v.SpaceOf(pf).bits|
    ensures ViewOk(Opened(v', pf, s, n, false))
  {
    hide OneToOne, TablesKept, HoldsFrame, Taken, OtherPoolKept;
    var space := v'.SpaceOf(pf);
    forall p | p in v'.pages && Managed(space, p)
      ensures space.bits[p - space.start]
    {
      assert PoolPage(v', p) && PageOk(v', p);
    }
    SpaceStep(v', pf, SetRange(space.bits, s - space.start, n, false));
  }

  lemma CloseRun(v: View, v': View, pf: Flag, s: nat, n: nat)
    requires UnmappedRun(v, v', pf, s, n)
    requires v.SpaceOf(pf).start <= s && s + n <= v.SpaceOf(pf).start + |v.SpaceOf(pf).bits|
    ensures FreedRun(v, Opened(v', pf, s, n, false), pf, s, n)
  {
    assert forall f: nat :: HoldsFrame(Opened(v, pf, s, n, false), s, n, f) <==> HoldsFrame(v, s, n, f);
  }

  /** Successful allocation and any release keep "address bit set" and "page
      mapped" the same thing. */
  lemma ExactAfterMalloc(v: View, v': View, pf: Flag, s: nat, n: nat)
    requires Exact(v) && v.SpaceOf(pf).start <= s && s + n <= v.SpaceOf(pf).start + |v.SpaceOf(pf).bits|
    requires MappedRun(Opened(v, pf, s, n, true), v', pf, s, n)
    ensures Exact(v')
  {
    hide OtherPoolKept, HoldsFrame, FreshFrame, Taken;
    forall qf: Flag, p: nat | Vbit(v'.SpaceOf(qf), p)
      ensures p in v'.pages
    {
      assert Vbit(v.SpaceOf(qf), p) || s <= p < s + n;
    }
  }

  lemma ExactAfterFree(v: View, v': View, pf: Flag, s: nat, n: nat)
    requires LayoutOk(v) && Exact(v) && FreedRun(v, v', pf, s, n)
    ensures Exact(v')
  {
    hide HoldsFrame, Taken;
    forall qf: Flag, p: nat | Vbit(v'.SpaceOf(qf), p)
      ensures p in v'.pages
    {
      assert Vbit(v.SpaceOf(qf), p);
    }
  }

  // ---- runs ---------------------------------------------------------------

  /** The pages of an allocation may be returned, and what could be returned before still can. */
  lemma OwnedAfterMalloc(v: View, v': View, pf: Flag, s: nat, n: nat, k: nat)
    requires ViewOk(v) && k <= n && v.SpaceOf(pf).start <= s && ClearRun(v.SpaceOf(pf).bits, s - v.SpaceOf(pf).start, n)
    requires MappedRun(Opened(v, pf, s, n, true), v', pf, s, k)
    ensures forall p :: s <= p < s + k ==> Owned(v', pf, p) && p !in v.pages
    ensures forall qf: Flag, p: nat :: Owned(v, qf, p) ==> Owned(v', qf, p)
  {
    hide PagesOk, OneToOne;
    var v1 := Opened(v, pf, s, n, true);
    forall p | s <= p < s + k
      ensures Owned(v', pf, p)
    {
      assert FreshFrame(v1, v', pf, p);
      assert Reserved(v, v.cr3);
      assert !v.SpaceOf(pf).bits[p - v.SpaceOf(pf).start];
    }
  }

  lemma OwnedAfterFree(v: View, v': View, pf: Flag, s: nat, n: nat)
    requires FreedRun(v, v', pf, s, n)
    ensures forall qf: Flag, p: nat :: Owned(v, qf, p) && !(s <= p < s + n) ==> Owned(v', qf, p)
  {
  }

  datatype PageEvent = Got(pf: Flag, cnt: nat) | Gave(pf: Flag, s: nat, n: nat)

  /** A malloc_page with frames enough or without addresses, or an mfree_page. */
  ghost predicate PageStep(v: View, v': View, e: PageEvent) {
    match e
    case Got(pf, cnt) =>
      1 <= cnt && if FirstRun(v.SpaceOf(pf).bits, cnt) == -1 then v' == v
                  else CanMap(v, pf, cnt) && MappedRun(Reserve(v, pf, cnt), v', pf, RunStart(v, pf, cnt), cnt)
    case Gave(pf, s, n) => LayoutOk(v) && FreedRun(v, v', pf, s, n)
  }

  /** Over every run of such calls an address bit is set iff its page is mapped. */
  lemma {:induction false} PageRunExact(vs: seq<View>, es: seq<PageEvent>)
    requires |vs| == |es| + 1 && Exact(vs[0]) && forall i :: 0 <= i < |es| ==> PageStep(vs[i], vs[i + 1], es[i])
    ensures Exact(vs[|es|])
  {
    hide MappedRun, Exact, CanMap, FreedRun;
    if es != [] {
      var k := |es| - 1;
      assert PageStep(vs[k], vs[k + 1], es[k]);
      var v := vs[k];
      PageRunExact(vs[..k + 1], es[..k]);
      match es[k]
      case Got(pf, cnt) =>
        if FirstRun(v.SpaceOf(pf).bits, cnt) != -1 {
          assert ClearRun(v.SpaceOf(pf).bits, FirstRun(v.SpaceOf(pf).bits, cnt), cnt);
          ExactAfterMalloc(v, vs[k + 1], pf, RunStart(v, pf, cnt), cnt);
        }
      case Gave(pf, s, n) => ExactAfterFree(v, vs[k + 1], pf, s, n);
    }
  }

  datatype PageRequest = Get(pf: Flag, cnt: nat) | Put(vaddr: nat)

  datatype Span = Span(pf: Flag, s: nat, n: nat)

  /** Runs of pages held by callers: all theirs to return, and disjoint. */
  ghost predicate HeldOk(v: View, held: map<nat, Span>) {
    && (forall a, p :: a in held && held[a].s <= p < held[a].s + held[a].n ==> Owned(v, held[a].pf, p))
    && (forall a :: a in held ==> a == held[a].s * 4096 && held[a].n >= 1)
    && (forall a, b :: a in held && b in held && a != b ==>
          held[a].s + held[a].n <= held[b].s || held[b].s + held[b].n <= held[a].s)
  }

  lemma HeldMore(v: View, v': View, held: map<nat, Span>, r: Span)
    requires HeldOk(v, held) && r.n >= 1
    requires forall p :: r.s <= p < r.s + r.n ==> Owned(v', r.pf, p) && p !in v.pages
    requires forall qf: Flag, p: nat :: Owned(v, qf, p) ==> Owned(v', qf, p)
    ensures r.s * 4096 !in held && HeldOk(v', held[r.s * 4096 := r])
  {
    forall a | a in held
      ensures held[a].s + held[a].n <= r.s || r.s + r.n <= held[a].s
    {
      var p := if held[a].s <= r.s then r.s else held[a].s;
      assert held[a].s <= p < held[a].s + held[a].n ==> Owned(v, held[a].pf, p);
    }
  }

  lemma HeldLess(v: View, v': View, held: map<nat, Span>, a: nat)
    requires HeldOk(v, held) && a in held
    requires forall qf: Flag, p: nat :: Owned(v, qf, p) && !(held[a].s <= p < held[a].s + held[a].n) ==> Owned(v', qf, p)
    ensures HeldOk(v', held - {a})
  {
  }

  /** malloc_page's outcomes. `NoTable` marks the point where the kernel has no
      frame left for a page table and goes on through a null table address. */
  datatype PageResult = Pages(vaddr: nat) | NoVaddr | NoFrame | NoTable

  class Pager {
    var m: Mem

    constructor (m0: Mem)
      requires Valid(m0)
      ensures m == m0
    {
      m := m0;
    }

    method Palloc(pf: Flag) returns (pa: nat)
      requires Valid(m)
      modifies this
      ensures Valid(m)
      ensures pa == 0 ==> m == old(m) && Full(m.PoolOf(pf)) && Free(m.PoolOf(pf).bits) == 0
      ensures pa != 0 ==> Free(m.PoolOf(pf).bits) == Free(old(m).PoolOf(pf).bits) - 1
      ensures pa != 0 ==>
        var pool, f := old(m).PoolOf(pf), pa / 4096;
        && pa == f * 4096 && InPool(pool, f) && !Taken(pool, f)
        && m == old(m).WithPool(pf, pool.bits[f - pool.base := true])
        && Abs(m) == Abs(old(m)).WithPool(pf, pool.bits[f - pool.base := true])
        && Taken(m.PoolOf(pf), f) && Unused(Abs(m), f) && f < |m.ram|
    {
      hide TablesOk, Abs, Unused, Free;
      SameRam(m, m);
      var pool := m.PoolOf(pf);
      var bitIdx := FirstRun(pool.bits, 1);
      if bitIdx == -1 {
        forall f: nat | InPool(pool, f)
          ensures Taken(pool, f)
        {
          assert !ClearRun(pool.bits, f - pool.base, 1);
        }
        NoneFree(pool.bits);
        return 0;
      }
      FreeTaken(pool.bits, bitIdx, true);
      FrameStep(Abs(m), pf, bitIdx);
      SameRam(m, m.WithPool(pf, pool.bits[bitIdx := true]));
      m := m.WithPool(pf, pool.bits[bitIdx := true]);
      pa := (bitIdx + pool.base) * 4096;
    }

    /** memset of the page table under directory slot `i`, word by word through
        its self-map window. */
    method ClearTable(i: nat)
      requires TablesOk(m) && i < 1023 && Present(Pde(m, i))
      modifies this
      ensures m == old(m).(ram := old(m).ram[FrameOf(Pde(old(m), i)) := Zeros()])
    {
      ghost var m0 := m;
      ghost var t := FrameOf(Pde(m, i));
      for k := 0 to 1024
        invariant TablesOk(m)
        invariant forall j :: 0 <= j < 1024 ==> Pde(m, j) == Pde(m0, j)
        invariant m == m0.(ram := m0.ram[t := m.ram[t]])
        invariant forall j :: 0 <= j < k ==> m.ram[t][j] == 0
      {
        Digits(i, k, 0);
        SelfMap(m, i * 0x400000 + k * 4096);
        assert PtePtr(i * 0x400000 + k * 4096) == 0xffc00000 + i * 4096 + k * 4;
        WordStep(m, i, k);
        m := Poke(m, 0xffc00000 + i * 4096 + k * 4, 0);
      }
      assert m.ram[t] == Zeros();
    }

    /** The branch of page_table_add that first creates the page table. */
    method AddTable(va: nat) returns (ok: bool)
      requires Valid(m) && LOW * 4096 <= va < PAGES * 4096 && !Present(Pde(m, PdeIdx(va)))
      modifies this
      ensures !ok ==> Full(old(m).kpool) && Free(old(m).kpool.bits) == 0
      ensures ok ==> Free(m.kpool.bits) == Free(old(m).kpool.bits) - 1
      ensures ok ==>
        Valid(m) && Tabled(Abs(old(m)), Abs(m), PdeIdx(va)) && Present(Pde(m, PdeIdx(va)))
    {
      hide ViewOk, RightsOk, Unused, Free, Walk;
      var i := PdeIdx(va);
      var t := Palloc(Kernel);
      if t == 0 {
        return false;
      }
      AddTableStep(m, va, t);
      m := Poke(m, PdePtr(va), t + 7);
      ClearTable(i);
      ok := true;
    }

    method PageTableAdd(va: nat, pa: nat, ghost pf: Flag) returns (ok: bool)
      requires Valid(m) && va % 4096 == 0 && pa % 4096 == 0
      requires Vbit(m.SpaceOf(pf), va / 4096) && va / 4096 !in Abs(m).pages
      requires Taken(m.PoolOf(pf), pa / 4096) && Unused(Abs(m), pa / 4096)
      modifies this
      ensures !ok ==> pf.User? && Full(old(m).kpool) && Free(old(m).kpool.bits) == 0 && va / 4096 / 1024 !in Abs(old(m)).tables
      ensures ok ==>
        && Valid(m)
        && Abs(m).tables.Keys == Abs(old(m)).tables.Keys + {va / 4096 / 1024}
        && Free(m.kpool.bits) == Free(old(m).kpool.bits) - (if va / 4096 / 1024 in Abs(old(m)).tables then 0 else 1)
        && Abs(m) == Abs(old(m)).(pages := Abs(old(m)).pages[va / 4096 := pa / 4096],
                                  tables := Abs(m).tables, kpool := m.kpool)
        && OtherPoolKept(Abs(old(m)), Abs(m), pf) && (pf.Kernel? ==> m.kpool == old(m).kpool)
        && Reaches(m, va / 4096, pa / 4096)
    {
      hide Free, ViewOk, Unused, Abs, TablesOk, RightsOk, Reaches, Poke;
      PageOfVa(va);
      PageRange(m, pf, va / 4096);
      SelfMap(m, va);
      HasTable(m, PdeIdx(va));
      SameRam(m, m);
      Layout(m);
      if !Present(Peek(m, PdePtr(va))) {
        ok := AddTable(va);
        if !ok {
          return;
        }
        TabledKeeps(Abs(old(m)), Abs(m), PdeIdx(va), pf, pa / 4096);
        SameRam(m, m);
      }
      SetPte(va, pa, pf);
      SameRam(m, m);
      ok := true;
    }

    method VaddrGet(pf: Flag, cnt: nat) returns (va: nat)
      requires Valid(m) && 1 <= cnt
      modifies this
      ensures Valid(m)
      ensures va == 0 ==> m == old(m) && FirstRun(m.SpaceOf(pf).bits, cnt) == -1
      ensures va != 0 ==>
        && va == (old(m).SpaceOf(pf).start + FirstRun(old(m).SpaceOf(pf).bits, cnt)) * 4096
        && FirstRun(old(m).SpaceOf(pf).bits, cnt) >= 0
        && Abs(m) == Opened(Abs(old(m)), pf, va / 4096, cnt, true)
        && forall p :: va / 4096 <= p < va / 4096 + cnt ==> p !in Abs(m).pages
    {
      hide TablesOk, ViewOk, Abs, RightsOk;
      Layout(m);
      SameRam(m, m);
      var space := m.SpaceOf(pf);
      var start := FirstRun(space.bits, cnt);
      if start == -1 {
        return 0;
      }
      var bits := space.bits;
      for k := 0 to cnt
        invariant bits == SetRange(space.bits, start, k, true)
      {
        bits := bits[start + k := true];
      }
      VaddrStep(m, pf, space.start + start, cnt);
      m := m.WithSpace(pf, bits);
      va := (space.start + start) * 4096;
      assert pf.User? ==> va < 0xc0000000 - PG_SIZE;
    }

    /** One round of malloc_page's loop: a frame, then its mapping. */
    method MapNext(pf: Flag, va: nat) returns (r: PageResult)
      requires Valid(m) && va % 4096 == 0 && Vbit(m.SpaceOf(pf), va / 4096) && va / 4096 !in Abs(m).pages
      modifies this
      ensures r == Pages(va) || r == NoFrame || (r == NoTable && pf.User?)
      ensures r == NoFrame ==> m == old(m) && Full(m.PoolOf(pf)) && Free(m.PoolOf(pf).bits) == 0
      ensures r == NoTable ==> Free(old(m).kpool.bits) == 0 && va / 4096 / 1024 !in Abs(old(m)).tables
      ensures r == Pages(va) ==> Valid(m) && Mapped(Abs(old(m)), Abs(m), pf, va / 4096)
      ensures r == Pages(va) ==> Cost(Abs(old(m)), Abs(m), pf, va / 4096, 1)
    {
      hide TablesOk, ViewOk, Unused, Free, Abs, Cost;
      PageRange(m, pf, va / 4096);
      SameRam(m, m);
      var pa := Palloc(pf);
      SameRam(m, m);
      if pa == 0 {
        return NoFrame;
      }
      var ok := PageTableAdd(va, pa, pf);
      if !ok {
        return NoTable;
      }
      SameRam(m, m);
      CostOne(Abs(old(m)), Abs(m), pf, va / 4096);
      return Pages(va);
    }

    /** `cnt` pages. Success, decided by the free addresses and frames, maps the
        first-fit run; running out of frames keeps the whole run marked and the
        pages mapped so far, as nothing is undone. */
    method MallocPage(pf: Flag, cnt: nat) returns (r: PageResult)
      requires Valid(m) && 0 < cnt < 3840
      modifies this
      ensures r.NoTable? ==> pf.User?
      ensures r.NoVaddr? <==> FirstRun(old(m).SpaceOf(pf).bits, cnt) == -1
      ensures r.NoVaddr? ==> m == old(m)
      ensures !r.NoVaddr? && !r.NoTable? ==> Valid(m)
      ensures r.Pages? <==> CanMap(Abs(old(m)), pf, cnt)
      ensures r.NoFrame? ==> !Exact(Abs(m))
      ensures r.NoFrame? ==>
        && Full(m.PoolOf(pf))
        && PartRun(Reserve(Abs(old(m)), pf, cnt), Abs(m), pf, RunStart(Abs(old(m)), pf, cnt), cnt)
      ensures r.Pages? ==>
        && r.vaddr == RunStart(Abs(old(m)), pf, cnt) * 4096
        && MappedRun(Reserve(Abs(old(m)), pf, cnt), Abs(m), pf, r.vaddr / 4096, cnt)
        && RunReached(m, r.vaddr / 4096, cnt)
    {
      hide ViewOk, TablesOk, MappedRun, Free, Missing, Exact, RightsOk, RunReached;
      var va := VaddrGet(pf, cnt);
      if va == 0 {
        return NoVaddr;
      }
      SameMissing(Abs(old(m)), Abs(m), va / 4096, cnt);
      ghost var v0 := Abs(m);
      assert v0 == Reserve(Abs(old(m)), pf, cnt) && va / 4096 == RunStart(Abs(old(m)), pf, cnt);
      r := MapRun(pf, va, cnt);
      if r.NoFrame? {
        assert ClearRun(old(m).SpaceOf(pf).bits, FirstRun(old(m).SpaceOf(pf).bits, cnt), cnt);
        ghost var k: nat :| k < cnt && MappedRun(v0, Abs(m), pf, va / 4096, k);
        NotExact(Abs(old(m)), Abs(m), pf, va / 4096, cnt, k);
      } else if r.Pages? {
        AllReached(m, v0, pf, va / 4096, cnt);
      }
    }

    method MapRun(pf: Flag, va: nat, cnt: nat) returns (r: PageResult)
      requires Valid(m) && va % 4096 == 0
      requires forall p :: va / 4096 <= p < va / 4096 + cnt ==> Vbit(m.SpaceOf(pf), p) && p !in Abs(m).pages
      modifies this
      ensures r == Pages(va) || r == NoFrame || (r == NoTable && pf.User?)
      ensures r == NoFrame ==> Valid(m) && Full(m.PoolOf(pf)) && PartRun(Abs(old(m)), Abs(m), pf, va / 4096, cnt)
      ensures r == Pages(va) ==> Valid(m) && MappedRun(Abs(old(m)), Abs(m), pf, va / 4096, cnt)
      ensures r.Pages? <==>
        && cnt <= Free(Abs(old(m)).PoolOf(pf).bits)
        && (pf.User? ==> |Missing(Abs(old(m)), va / 4096, cnt)| <= Free(Abs(old(m)).kpool.bits))
    {
      hide ViewOk, TablesOk, Free, Spanned, Missing, Cost, MappedRun, Mapped, Abs, Full;
      ghost var v0, s := Abs(m), va / 4096;
      CostNone(v0, pf, s);
      SameRam(m, m);
      MappedNone(v0, pf, s);
      for k := 0 to cnt
        invariant Valid(m) && MappedRun(v0, Abs(m), pf, s, k) && Cost(v0, Abs(m), pf, s, k)
      {
        ghost var v1 := Abs(m);
        var next := va + k * PG_SIZE;
        assert next / 4096 == s + k && next % 4096 == 0;
        SameRam(m, m);
        MappedSoFar(v0, v1, pf, s, k);
        assert Vbit(old(m).SpaceOf(pf), s + k);
        r := MapNext(pf, next);
        if !r.Pages? {
          CostShort(v0, v1, pf, s, k, cnt, r);
          return;
        }
        MappedRunStep(v0, v1, Abs(m), pf, s, k);
        CostStep(v0, v1, Abs(m), pf, s, k);
      }
      CostMet(v0, Abs(m), pf, s, cnt);
      return Pages(va);
    }

    /** addr_v2p. */
    function AddrV2P(va: nat): nat
      requires RamOk(m.ram, m.cr3) && PtePtr(va) < 0x1_0000_0000 && Walk(m.ram, m.cr3, PtePtr(va)).Some?
      reads this
    {
      FrameOf(Peek(m, PtePtr(va))) * 4096 + va % 4096
    }

    /** The pool is chosen by the physical address. */
    method Pfree(pa: nat)
      requires pa >= m.kpool.base * 4096 && m.kpool.base <= m.upool.base
      requires pa < m.upool.base * 4096 ==> pa / 4096 < m.kpool.base + |m.kpool.bits|
      requires pa >= m.upool.base * 4096 ==> pa / 4096 < m.upool.base + |m.upool.bits|
      modifies this
      ensures pa % 4096 == 0 ==>
        var pf := if pa >= old(m).upool.base * 4096 then User else Kernel;
        m == old(m).WithPool(pf, old(m).PoolOf(pf).bits[pa / 4096 - old(m).PoolOf(pf).base := false])
    {
      if pa >= m.upool.base * 4096 {
        var bitIdx := (pa - m.upool.base * 4096) / PG_SIZE;
        m := m.(upool := m.upool.(bits := m.upool.bits[bitIdx := false]));
      } else {
        var bitIdx := (pa - m.kpool.base * 4096) / PG_SIZE;
        m := m.(kpool := m.kpool.(bits := m.kpool.bits[bitIdx := false]));
      }
    }

    /** One round of mfree_page's loop; both loops' assertions hold. */
    method UnmapNext(ghost pf: Flag, va: nat)
      requires Valid(m) && va % 4096 == 0 && Owned(Abs(m), pf, va / 4096)
      modifies this
      ensures Taken(old(m).PoolOf(pf), Abs(old(m)).pages[va / 4096])
      ensures Valid(m) && Abs(m) == Unmapped(Abs(old(m)), pf, va / 4096)
    {
      hide TablesOk, ViewOk, Abs, Walk, Peek, Poke, Unmapped, Owned, FrameOf, Present;
      UnmapFacts(m, pf, va);
      UnmapDone(m, pf, va);
      var pa := AddrV2P(va);
      assert pa % PG_SIZE == 0 && pa >= 0x102000;
      assert if pf.User? then pa >= m.upool.base * 4096
             else m.kpool.base * 4096 <= pa < m.upool.base * 4096;
      Pfree(pa);
      m := Poke(m, PtePtr(va), Peek(m, PtePtr(va)) - 1);
    }

    method UnmapRun(ghost pf: Flag, va: nat, cnt: nat)
      requires Valid(m) && va % 4096 == 0
      requires forall p :: va / 4096 <= p < va / 4096 + cnt ==> Owned(Abs(m), pf, p)
      modifies this
      ensures Valid(m) && UnmappedRun(Abs(old(m)), Abs(m), pf, va / 4096, cnt)
    {
      hide ViewOk, TablesOk, Abs;
      ghost var v0, s := Abs(m), va / 4096;
      for k := 0 to cnt
        invariant Valid(m) && UnmappedRun(v0, Abs(m), pf, s, k)
      {
        ghost var v1 := Abs(m);
        var next := va + k * PG_SIZE;
        assert next / 4096 == s + k && next % 4096 == 0;
        assert Owned(v0, pf, s + k);
        SameRam(m, m);
        UnmapNext(pf, next);
        UnmappedRunStep(v0, v1, pf, s, k);
      }
    }

    /** Returns `cnt` pages: frames and entries first, address bits last. */
    method MfreePage(pf: Flag, va: nat, cnt: nat)
      requires Valid(m) && va % 4096 == 0 && 1 <= cnt
      requires forall p :: va / 4096 <= p < va / 4096 + cnt ==> Owned(Abs(m), pf, p)
      modifies this
      ensures Valid(m) && FreedRun(Abs(old(m)), Abs(m), pf, va / 4096, cnt)
    {
      hide ViewOk, TablesOk, Abs;
      ghost var v0, s := Abs(m), va / 4096;
      assert Owned(v0, pf, s) && Owned(v0, pf, s + cnt - 1);
      assert forall p :: s <= p < s + cnt ==> Owned(v0, pf, p);
      assert s <= STACK < s + cnt ==> Owned(v0, pf, STACK);
      SameRam(m, m);
      UnmapRun(pf, va, cnt);
      SameRam(m, m);
      var space := m.SpaceOf(pf);
      var bits, start := space.bits, va / 4096 - space.start;
      for k := 0 to cnt
        invariant bits == SetRange(space.bits, start, k, false)
      {
        bits := bits[start + k := false];
      }
      CloseStep(v0, Abs(m), pf, s, cnt);
      SameRam(m, m.WithSpace(pf, bits));
      m := m.WithSpace(pf, bits);
    }

    /** Any script of malloc_page and mfree_page, up to the first request for
        which addresses can be found but not frames. Until then an address bit is
        set iff its page is mapped, every record agrees, and what is held can be
        returned; a request without data frames ends that. */
    method Run(script: seq<PageRequest>) returns (held: map<nat, Span>, last: PageResult)
      requires Valid(m) && Exact(Abs(m))
      modifies this
      ensures last.NoFrame? ==> Valid(m) && !Exact(Abs(m))
      ensures last.NoTable? ==> exists i, pf, cnt :: 0 <= i < |script| && script[i] == Get(pf, cnt) && pf.User?
      ensures !last.NoFrame? && !last.NoTable? ==> Valid(m) && Exact(Abs(m)) && HeldOk(Abs(m), held)
      ensures !last.NoFrame? && !last.NoTable? ==> forall a :: a in held ==> RunReached(m, held[a].s, held[a].n)
    {
      hide ViewOk, TablesOk, MappedRun, Abs, Exact, Owned, HeldOk, CanMap, FreedRun, PartRun, RightsOk, RunReached;
      held, last := map[], NoVaddr;
      NoneHeld(Abs(m));
      for i := 0 to |script|
        invariant Valid(m) && Exact(Abs(m)) && HeldOk(Abs(m), held) && !last.NoFrame? && !last.NoTable?
      {
        ghost var v := Abs(m);
        SameRam(m, m);
        match script[i]
        case Get(pf, cnt) =>
          if 0 < cnt < 3840 {
            last := MallocPage(pf, cnt);
            if last.NoFrame? || last.NoTable? {
              return;
            } else if last.Pages? {
              RunKept(v, Abs(m), pf, cnt, held);
              held := held[last.vaddr := Span(pf, last.vaddr / 4096, cnt)];
            }
          }
        case Put(vaddr) =>
          if vaddr in held {
            ghost var r := held[vaddr];
            HeldOwned(v, held, vaddr);
            MfreePage(held[vaddr].pf, vaddr, held[vaddr].n);
            OwnedAfterFree(v, Abs(m), r.pf, r.s, r.n);
            HeldLess(v, Abs(m), held, vaddr);
            ValidLayout(v);
            ExactAfterFree(v, Abs(m), r.pf, r.s, r.n);
            held := held - {vaddr};
          }
      }
      forall a | a in held ensures RunReached(m, held[a].s, held[a].n) {
        HeldReached(m, held, a);
      }
    }

    /** The store that ends both branches; its assertion is that the entry is empty. */
    method SetPte(va: nat, pa: nat, ghost pf: Flag)
      requires Valid(m) && va % 4096 == 0 && pa % 4096 == 0
      requires Vbit(m.SpaceOf(pf), va / 4096) && va / 4096 !in Abs(m).pages && Present(Pde(m, PdeIdx(va)))
      requires Taken(m.PoolOf(pf), pa / 4096) && Unused(Abs(m), pa / 4096)
      modifies this
      ensures Valid(m)
      ensures Abs(m) == Abs(old(m)).(pages := Abs(old(m)).pages[va / 4096 := pa / 4096])
      ensures Reaches(m, va / 4096, pa / 4096)
    {
      hide ViewOk, RightsOk, Reaches;
      SetPteStep(m, va, pa, pf);
      assert !Present(Peek(m, PtePtr(va)));
      m := Poke(m, PtePtr(va), pa + 7);
      UserReaches(m, pf, va / 4096);
    }
  }

  lemma NoneHeld(v: View)
    ensures HeldOk(v, map[])
  {
  }

  lemma ValidLayout(v: View)
    requires ViewOk(v)
    ensures LayoutOk(v)
  {
  }

  lemma HeldOwned(v: View, held: map<nat, Span>, a: nat)
    requires HeldOk(v, held) && a in held
    ensures a % 4096 == 0 && a / 4096 == held[a].s && 1 <= held[a].n
    ensures forall p :: held[a].s <= p < held[a].s + held[a].n ==> Owned(v, held[a].pf, p)
  {
    hide Owned;
  }

  lemma HeldReached(m: Mem, held: map<nat, Span>, a: nat)
    requires Valid(m) && HeldOk(Abs(m), held) && a in held
    ensures RunReached(m, held[a].s, held[a].n)
  {
    hide ViewOk, TablesOk, RightsOk, Abs, Reaches;
    SameRam(m, m);
    forall p | held[a].s <= p < held[a].s + held[a].n ensures p in Abs(m).pages && Reaches(m, p, Abs(m).pages[p]) {
      assert Owned(Abs(m), held[a].pf, p);
      UserReaches(m, held[a].pf, p);
    }
  }

  /** A successful allocation keeps what a run keeps. */
  lemma RunKept(v: View, v': View, pf: Flag, cnt: nat, held: map<nat, Span>)
    requires ViewOk(v) && Exact(v) && HeldOk(v, held) && 1 <= cnt && FirstRun(v.SpaceOf(pf).bits, cnt) >= 0
    requires MappedRun(Reserve(v, pf, cnt), v', pf, RunStart(v, pf, cnt), cnt)
    ensures Exact(v') && HeldOk(v', held[RunStart(v, pf, cnt) * 4096 := Span(pf, RunStart(v, pf, cnt), cnt)])
  {
    hide ViewOk, MappedRun, Exact, Owned, HeldOk;
    var s := RunStart(v, pf, cnt);
    assert ClearRun(v.SpaceOf(pf).bits, FirstRun(v.SpaceOf(pf).bits, cnt), cnt);
    ExactAfterMalloc(v, v', pf, s, cnt);
    OwnedAfterMalloc(v, v', pf, s, cnt, cnt);
    HeldMore(v, v', held, Span(pf, s, cnt));
  }

  lemma NoneFree(bits: seq<bool>)
    requires FirstRun(bits, 1) == -1
    ensures Free(bits) == 0
  {
    FreeZero(bits);
    assert forall k: nat :: k < |bits| ==> bits[k] || ClearRun(bits, k, 1);
  }

  /** Managed pages lie above the first 4 MB, and the kernel's have a table. */
  lemma PageRange(m: Mem, pf: Flag, p: nat)
    requires Valid(m) && Vbit(m.SpaceOf(pf), p)
    ensures LOW <= p < PAGES && (pf.Kernel? ==> p / 1024 in Abs(m).tables)
  {
    hide PagesOk, OneToOne;
  }

  /** Having run out after `k` pages, there was not enough for `n`. */
  lemma CostShort(v: View, v1: View, pf: Flag, s: nat, k: nat, n: nat, r: PageResult)
    requires Cost(v, v1, pf, s, k) && k < n && (r.NoFrame? || r.NoTable?)
    requires r.NoFrame? ==> Free(v1.PoolOf(pf).bits) == 0
    requires r.NoTable? ==> pf.User? && Free(v1.kpool.bits) == 0 && (s + k) / 1024 !in v1.tables
    ensures !(n <= Free(v.PoolOf(pf).bits) && (pf.User? ==> |Missing(v, s, n)| <= Free(v.kpool.bits)))
  {
    hide Free, Spanned;
    if r.NoTable? {
      assert (s + k) / 1024 !in v1.tables.Keys;
      MissingMore(v, s, k, n);
    }
  }

  lemma CostMet(v: View, v': View, pf: Flag, s: nat, n: nat)
    requires Cost(v, v', pf, s, n)
    ensures n <= Free(v.PoolOf(pf).bits) && (pf.User? ==> |Missing(v, s, n)| <= Free(v.kpool.bits))
  {
    hide Free, Spanned;
  }

  lemma CostNone(v: View, pf: Flag, s: nat)
    ensures Cost(v, v, pf, s, 0)
  {
    assert Spanned(s, 0) == {} && v.tables.Keys + {} == v.tables.Keys;
    assert {} - v.tables.Keys == {};
  }

  lemma CostOne(v: View, v': View, pf: Flag, p: nat)
    requires v'.tables.Keys == v.tables.Keys + {p / 1024}
    requires pf.Kernel? ==> p / 1024 in v.tables
    requires Free(v'.PoolOf(pf).bits) == Free(v.PoolOf(pf).bits) - 1
    requires pf.User? ==> Free(v'.kpool.bits) == Free(v.kpool.bits) - if p / 1024 in v.tables then 0 else 1
    ensures Cost(v, v', pf, p, 1)
  {
    hide Free, Spent;
    SpentOne(v.tables.Keys, v'.tables.Keys, Free(v.PoolOf(pf).bits), Free(v'.PoolOf(pf).bits),
             Free(v.kpool.bits), Free(v'.kpool.bits), pf.User?, p);
  }

  lemma SpentOne(keys: set<nat>, keys': set<nat>, a: nat, a': nat, b: nat, b': nat, user: bool, p: nat)
    requires keys' == keys + {p / 1024} && a' == a - 1 && (user ==> b' == b - if p / 1024 in keys then 0 else 1)
    ensures Spent(keys, keys', a, a', b, b', user, p, 1)
  {
    hide Spanned;
    SpannedOne(p);
    assert {p / 1024} - keys == if p / 1024 in keys then {} else {p / 1024};
  }

  lemma SameMissing(v: View, v': View, s: nat, n: nat)
    requires v'.tables == v.tables
    ensures Missing(v', s, n) == Missing(v, s, n)
  {
  }

  lemma PageOfVa(va: nat)
    ensures PdeIdx(va) == va / 4096 / 1024 && PteIdx(va) == va / 4096 % 1024
    ensures va / 4096 < PAGES ==> va < PAGES * 4096 < 0x1_0000_0000
  {
  }

  lemma FullRights(pa: nat)
    requires pa % 4096 == 0
    ensures Rights(pa + 7)
  {
  }

  lemma EntryWord(pa: nat)
    requires pa % 4096 == 0
    ensures Present(pa + 7) && FrameOf(pa + 7) == pa / 4096
  {
  }

  lemma AddTableStep(m: Mem, va: nat, ta: nat)
    requires Valid(m) && LOW * 4096 <= va < PAGES * 4096 && !Present(Pde(m, PdeIdx(va)))
    requires ta % 4096 == 0 && Taken(m.kpool, ta / 4096) && Unused(Abs(m), ta / 4096)
    ensures PdePtr(va) < 0x1_0000_0000 && Walk(m.ram, m.cr3, PdePtr(va)).Some?
    ensures var m1 := Poke(m, PdePtr(va), ta + 7);
            var m' := m1.(ram := m1.ram[ta / 4096 := Zeros()]);
            && TablesOk(m1) && Present(Pde(m1, PdeIdx(va))) && FrameOf(Pde(m1, PdeIdx(va))) == ta / 4096
            && Valid(m') && Abs(m') == Abs(m).(tables := Abs(m).tables[PdeIdx(va) := ta / 4096])
  {
    var i, t := PdeIdx(va), ta / 4096;
    SelfMap(m, va);
    EntryWord(ta);
    assert Poke(m, PdePtr(va), ta + 7) == StoreAt(m, m.cr3, i, t * 4096 + 7);
    StoreTable(m, i, t);
    TableStep(Abs(m), i, t);
  }

  /** The entry that page_table_add is about to set is there, and empty. */
  lemma SetPtePlace(m: Mem, va: nat, pf: Flag)
    requires Valid(m) && va % 4096 == 0
    requires Vbit(m.SpaceOf(pf), va / 4096) && va / 4096 !in Abs(m).pages && Present(Pde(m, PdeIdx(va)))
    ensures va < PAGES * 4096 && LOW <= va / 4096 < PAGES && PtePtr(va) < 0x1_0000_0000 && Walk(m.ram, m.cr3, PtePtr(va)).Some?
    ensures !Present(Peek(m, PtePtr(va))) && !Present(Entry(m, va / 4096))
  {
    PageOfVa(va);
    SelfMap(m, va);
    hide ViewOk;
    assert !Present(Entry(m, va / 4096));
  }

  lemma SetPteStep(m: Mem, va: nat, pa: nat, pf: Flag)
    requires Valid(m) && va % 4096 == 0 && pa % 4096 == 0
    requires Vbit(m.SpaceOf(pf), va / 4096) && va / 4096 !in Abs(m).pages && Present(Pde(m, PdeIdx(va)))
    requires Taken(m.PoolOf(pf), pa / 4096) && Unused(Abs(m), pa / 4096)
    ensures va < PAGES * 4096 && PtePtr(va) < 0x1_0000_0000 && Walk(m.ram, m.cr3, PtePtr(va)).Some?
    ensures !Present(Peek(m, PtePtr(va)))
    ensures var m' := Poke(m, PtePtr(va), pa + 7);
            Valid(m') && Abs(m') == Abs(m).(pages := Abs(m).pages[va / 4096 := pa / 4096])
  {
    hide ViewOk, Present, Entry;
    var p, f := va / 4096, pa / 4096;
    PageOfVa(va);
    SetPtePlace(m, va, pf);
    SelfMap(m, va);
    hide TablesOk;
    EntryWord(pa);
    var m' := Poke(m, PtePtr(va), pa + 7);
    assert m' == StoreAt(m, FrameOf(Pde(m, p / 1024)), p % 1024, pa + 7);
    StorePage(m, p, pa + 7);
    FullRights(pa);
    RightsStore(m, p, pa + 7);
    MapStep(Abs(m), pf, p, f);
  }

  /** Setting a clear run of address bits touches no mapped page. */
  lemma VaddrStep(m: Mem, pf: Flag, s: nat, n: nat)
    requires Valid(m) && m.SpaceOf(pf).start <= s && ClearRun(m.SpaceOf(pf).bits, s - m.SpaceOf(pf).start, n)
    ensures var m' := m.WithSpace(pf, SetRange(m.SpaceOf(pf).bits, s - m.SpaceOf(pf).start, n, true));
            Valid(m') && Abs(m') == Opened(Abs(m), pf, s, n, true)
    ensures forall p :: s <= p < s + n ==> p !in Abs(m).pages
  {
    hide TablesOk, ViewOk, Abs;
    SameRam(m, m.WithSpace(pf, SetRange(m.SpaceOf(pf).bits, s - m.SpaceOf(pf).start, n, true)));
    OpenStep(Abs(m), pf, s, n);
  }

  lemma OpenStep(v: View, pf: Flag, s: nat, n: nat)
    requires ViewOk(v) && v.SpaceOf(pf).start <= s && ClearRun(v.SpaceOf(pf).bits, s - v.SpaceOf(pf).start, n)
    ensures ViewOk(Opened(v, pf, s, n, true))
    ensures forall p :: s <= p < s + n ==> p !in v.pages
  {
    hide OneToOne, TablesKept;
    var space := v.SpaceOf(pf);
    forall p | p in v.pages && Managed(space, p)
      ensures space.bits[p - space.start]
    {
      assert PoolPage(v, p) && PageOk(v, p);
    }
    SpaceStep(v, pf, SetRange(space.bits, s - space.start, n, true));
  }

  /** What one round of mfree_page relies on: the entry is there to be read and
      its frame is a used frame of the right pool. */
  lemma UnmapFacts(m: Mem, pf: Flag, va: nat)
    requires Valid(m) && va % 4096 == 0 && Owned(Abs(m), pf, va / 4096)
    ensures LOW <= va / 4096 < PAGES && RamOk(m.ram, m.cr3) && PtePtr(va) < 0x1_0000_0000
    ensures Present(Pde(m, va / 4096 / 1024))
    ensures Walk(m.ram, m.cr3, PtePtr(va)) == Some(Loc(FrameOf(Pde(m, va / 4096 / 1024)), va / 4096 % 1024))
    ensures var w := Peek(m, PtePtr(va)); w >= 1 && !Present(w - 1) && FrameOf(w) == Abs(m).pages[va / 4096]
    ensures 0x102 <= m.kpool.base && m.kpool.base + |m.kpool.bits| <= m.upool.base
    ensures Taken(m.PoolOf(pf), Abs(m).pages[va / 4096])
  {
    hide TablesKept, OneToOne, RightsOk;
    var p := va / 4096;
    PageOfVa(va);
    assert p < PAGES;
    SelfMap(m, va);
    assert PoolPage(Abs(m), p) && PageOk(Abs(m), p);
    assert Present(Pde(m, p / 1024)) && Present(Entry(m, p));
  }

  /** What it achieves. */
  lemma UnmapDone(m: Mem, pf: Flag, va: nat)
    requires Valid(m) && va % 4096 == 0 && Owned(Abs(m), pf, va / 4096)
    requires RamOk(m.ram, m.cr3) && PtePtr(va) < 0x1_0000_0000 && Walk(m.ram, m.cr3, PtePtr(va)).Some?
    requires Taken(m.PoolOf(pf), Abs(m).pages[va / 4096])
    ensures var m1 := m.WithPool(pf, m.PoolOf(pf).bits[Abs(m).pages[va / 4096] - m.PoolOf(pf).base := false]);
            && RamOk(m1.ram, m1.cr3) && Walk(m1.ram, m1.cr3, PtePtr(va)).Some?
            && Peek(m1, PtePtr(va)) == Peek(m, PtePtr(va)) >= 1
            && var m' := Poke(m1, PtePtr(va), Peek(m, PtePtr(va)) - 1);
            Valid(m') && Abs(m') == Unmapped(Abs(m), pf, va / 4096)
  {
    hide TablesOk, ViewOk, Abs, Entry, Walk, FrameOf, Present;
    UnmapFacts(m, pf, va);
    UnmapStep(Abs(m), pf, va / 4096);
    SameRam(m, m);
    var m1 := m.WithPool(pf, m.PoolOf(pf).bits[Abs(m).pages[va / 4096] - m.PoolOf(pf).base := false]);
    SameRam(m, m1);
    StorePage(m1, va / 4096, Peek(m, PtePtr(va)) - 1);
    RightsStore(m1, va / 4096, Peek(m, PtePtr(va)) - 1);
  }

  /** LayoutOk, on the machine itself. */
  lemma Layout(m: Mem)
    requires Valid(m)
    ensures LayoutOk(Abs(m))
    ensures m.uspace.bits == [] || (0x8048 <= m.uspace.start && m.uspace.start + |m.uspace.bits| <= 0xc0000)
    ensures Managed(m.uspace, STACK) ==> m.uspace.bits[STACK - m.uspace.start]
    ensures 0xc0100 <= m.kspace.start && m.kspace.start + |m.kspace.bits| <= PAGES
  {
  }

  lemma HasTable(m: Mem, i: nat)
    requires TablesOk(m) && 1 <= i < 1023
    ensures Present(Pde(m, i)) <==> i in Abs(m).tables
  {
  }

  /** What the tables mean depends on RAM and the directory only. */
  lemma SameRam(m: Mem, m': Mem)
    requires TablesOk(m) && m'.ram == m.ram && m'.cr3 == m.cr3
    ensures TablesOk(m') && (RightsOk(m') <==> RightsOk(m))
    ensures Abs(m') == Abs(m).(kpool := m'.kpool, upool := m'.upool, kspace := m'.kspace, uspace := m'.uspace)
    ensures Abs(m).kpool == m.kpool && Abs(m).upool == m.upool
    ensures Abs(m).kspace == m.kspace && Abs(m).uspace == m.uspace
    ensures Abs(m).frames == |m.ram| && Abs(m).cr3 == m.cr3
  {
    assert forall i :: 0 <= i < 1024 ==> Pde(m', i) == Pde(m, i);
    assert TablesOk(m');
    assert forall p :: 0 <= p < PAGES ==> Entry(m', p) == Entry(m, p);
    assert Abs(m').tables == Abs(m).tables && Abs(m').pages == Abs(m).pages;
  }

  /** A store into a table leaves the directory alone. */
  lemma WordStep(m: Mem, i: nat, k: nat)
    requires TablesOk(m) && i < 1023 && Present(Pde(m, i)) && k < 1024
    ensures var m' := StoreAt(m, FrameOf(Pde(m, i)), k, 0);
            TablesOk(m') && forall j :: 0 <= j < 1024 ==> Pde(m', j) == Pde(m, j)
  {
    var m' := StoreAt(m, FrameOf(Pde(m, i)), k, 0);
    assert m'.ram[m.cr3] == m.ram[m.cr3];
    assert forall j :: 0 <= j < 1024 ==> Pde(m', j) == Pde(m, j);
  }

  // ---- the machine after boot ----------------------------------------------

  /** What the loader writes: the directory in frame 0x100, one table for slots
      0 and 768, and tables for the other kernel slots in the frames after it. */
  function BootPde(i: nat): nat {
    if i == 0 || i == 768 then 0x101 * 4096 + 7
    else if 769 <= i < 1023 then (0x102 + (i - 769)) * 4096 + 7
    else if i == 1023 then 0x100 * 4096 + 7
    else 0
  }

  function BootWord(f: nat, i: nat): nat {
    if f == 0x100 then BootPde(i) else if f == 0x101 && i < 256 then i * 4096 + 7 else 0
  }

  function BootFrame(f: nat): (row: seq<nat>)
    ensures |row| == 1024 && forall i :: 0 <= i < 1024 ==> row[i] == BootWord(f, i)
  {
    seq(1024, i requires 0 <= i => BootWord(f, i))
  }

  function BootRam(frames: nat): (ram: seq<seq<nat>>)
    ensures |ram| == frames && forall f :: 0 <= f < frames ==> ram[f] == BootFrame(f)
  {
    seq(frames, f requires 0 <= f => BootFrame(f))
  }

  function NoBits(n: nat): (b: seq<bool>)
    ensures |b| == n && forall i :: 0 <= i < n ==> !b[i]
  {
    seq(n, i => false)
  }

  /** mem_pool_init: `k` kernel and `u` user frames above the first 2 MB, as many
      kernel heap pages as kernel frames, and a kernel thread running. */
  function Boot(frames: nat, k: nat, u: nat): Mem {
    Mem(BootRam(frames), 0x100, Pool(NoBits(k), 0x200), Pool(NoBits(u), 0x200 + k),
        Space(NoBits(k), 0xc0100), Space([], 0))
  }

  lemma BootPdes(frames: nat, k: nat, u: nat)
    requires 0x200 + k + u <= frames
    ensures var m := Boot(frames, k, u);
            RamOk(m.ram, m.cr3) && forall i :: 0 <= i < 1024 ==> Pde(m, i) == BootPde(i)
  {
  }

  lemma BootPresent(i: nat)
    requires i < 1024
    ensures Present(BootPde(i)) <==> i == 0 || 768 <= i
    ensures Present(BootPde(i)) ==> FrameOf(BootPde(i)) == if i == 1023 then 0x100 else if i == 0 then 0x101 else 0x101 + (i - 768)
  {
  }

  lemma BootTables(frames: nat, k: nat, u: nat)
    requires 0x200 + k + u <= frames
    ensures TablesOk(Boot(frames, k, u))
  {
    hide BootPde, Present, FrameOf, Pde;
    BootPdes(frames, k, u);
    forall i: nat | i < 1024
      ensures Present(BootPde(i)) <==> i == 0 || 768 <= i
      ensures Present(BootPde(i)) ==> FrameOf(BootPde(i)) == if i == 1023 then 0x100 else if i == 0 then 0x101 else 0x101 + (i - 768)
    {
      BootPresent(i);
    }
    assert BootPde(1023) == 0x100 * 4096 + 7 by { BootLast(); }
  }

  lemma BootLast()
    ensures BootPde(1023) == 0x100 * 4096 + 7
  {
  }

  lemma BootEntry(frames: nat, k: nat, u: nat, p: nat)
    requires 0x200 + k + u <= frames && 0xc0100 <= p < PAGES
    ensures TablesOk(Boot(frames, k, u)) && !Present(Entry(Boot(frames, k, u), p))
  {
    hide BootPde;
    BootTables(frames, k, u);
    BootPdes(frames, k, u);
    BootPresent(p / 1024);
    var m := Boot(frames, k, u);
    var f := FrameOf(Pde(m, p / 1024));
    assert f == 0x101 + (p / 1024 - 768);
    assert m.ram[f] == BootFrame(f);
    assert p / 1024 == 768 ==> p % 1024 >= 256;
  }

  /** Everything the loader sets up has full rights. */
  lemma BootRights(frames: nat, k: nat, u: nat)
    requires 0x200 + k + u <= frames
    ensures TablesOk(Boot(frames, k, u)) && RightsOk(Boot(frames, k, u))
  {
    hide BootPde, Rights;
    var m := Boot(frames, k, u);
    BootTables(frames, k, u);
    BootPdes(frames, k, u);
    forall i: nat | i < 1024 && Present(Pde(m, i)) ensures Rights(Pde(m, i)) {
      BootPdeRights(i);
    }
    forall p: nat | p < PAGES && Present(Entry(m, p)) ensures Rights(Entry(m, p)) {
      var f := FrameOf(Pde(m, p / 1024));
      assert m.ram[f] == BootFrame(f);
      BootPresent(p / 1024);
      FullRights(p % 1024 * 4096);
    }
  }

  lemma BootPdeRights(i: nat)
    requires i < 1024 && Present(BootPde(i))
    ensures Rights(BootPde(i))
  {
    FullRights(BootPde(i) - 7);
  }

  /** The kernel starts in a consistent state, with slots 0 and 768 on one table. */
  lemma BootValid(frames: nat, k: nat, u: nat)
    requires 0x200 + k + u <= frames && k <= 0x8000
    ensures var m := Boot(frames, k, u);
            Valid(m) && Exact(Abs(m)) && Present(Pde(m, 0)) && Pde(m, 0) == Pde(m, 768)
  {
    hide BootPde, BootWord, BootFrame, BootRam, Entry, RightsOk;
    var m := Boot(frames, k, u);
    BootRights(frames, k, u);
    BootTables(frames, k, u);
    BootPdes(frames, k, u);
    assert BootPde(0) == BootPde(768) by { BootFirst(); }
    forall p: nat | Managed(m.kspace, p)
      ensures 0xc0100 <= p < PAGES && p / 1024 in Abs(m).tables && p !in Abs(m).pages
    {
      BootPresent(p / 1024);
      BootEntry(frames, k, u, p);
    }
    forall i | i in Abs(m).tables
      ensures Abs(m).tables[i] < 0x200
    {
      BootPresent(i);
    }
    BootPresent(0);
    assert forall p :: !PoolPage(Abs(m), p);
  }

  lemma BootFirst()
    ensures BootPde(0) == BootPde(768)
  {
  }
}
