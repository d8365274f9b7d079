/** Directories as a tree: search_file, sys_mkdir, sys_rmdir, sys_chdir and
    sys_getcwd of fs/fs.c. A directory is its slots in block order; a slot's
    name, inode number and type are all zero when it is free. */
module DirTree {
  import opened Common
  import opened Paths

  datatype FileType = Unknown | Regular | Directory

  datatype Entry = Entry(name: string, ino: nat, ftype: FileType)

  const FREE := Entry("", 0, Unknown)

  /** `depth` is the distance from the root; the disk does not record it. */
  datatype Dir = Dir(depth: nat, slots: seq<Entry>)

  type Tree = map<nat, Dir>

  const ROOT: nat := 0

  // ---- well-formed trees ---------------------------------------------------

  function ParentOf(t: Tree, d: nat): nat
    requires d in t && |t[d].slots| >= 2
  {
    t[d].slots[1].ino
  }

  /** Slots 0 and 1 are "." and "..", and the parent is one level up. */
  ghost predicate DotsOk(t: Tree, d: nat)
    requires d in t
  {
    && |t[d].slots| >= 2
    && t[d].slots[0] == Entry(".", d, Directory)
    && t[d].slots[1] == Entry("..", ParentOf(t, d), Directory)
    && ParentOf(t, d) in t
    && (if d == ROOT then ParentOf(t, d) == ROOT && t[d].depth == 0 else t[d].depth == t[ParentOf(t, d)].depth + 1)
  }

  predicate EntryOk(t: Tree, d: nat, e: Entry) {
    e == FREE || (
      && Plain([e.name]) && |e.name| < MAX_FILE_NAME_LEN && e.ino != ROOT && !e.ftype.Unknown?
      && (e.ftype.Directory? ==> e.ino in t && |t[e.ino].slots| >= 2 && ParentOf(t, e.ino) == d)
      && (e.ftype.Regular? ==> e.ino !in t))
  }

  /** The other slots hold plain names, no name and no inode twice. */
  ghost predicate SlotsOk(t: Tree, d: nat)
    requires d in t
  {
    && (forall i :: 2 <= i < |t[d].slots| ==> EntryOk(t, d, t[d].slots[i]))
    && (forall i, j :: 2 <= i < j < |t[d].slots| && t[d].slots[i] != FREE && t[d].slots[j] != FREE ==>
          t[d].slots[i].name != t[d].slots[j].name && t[d].slots[i].ino != t[d].slots[j].ino)
  }

  /** Directory `c` is listed in its parent. */
  ghost predicate Listed(t: Tree, c: nat)
    requires c in t && |t[c].slots| >= 2 && ParentOf(t, c) in t
  {
    exists i :: 2 <= i < |t[ParentOf(t, c)].slots| && t[ParentOf(t, c)].slots[i].ino == c
                && t[ParentOf(t, c)].slots[i].ftype.Directory?
  }

  ghost predicate DirOk(t: Tree, d: nat)
    requires d in t
  {
    DotsOk(t, d) && SlotsOk(t, d) && (d != ROOT ==> Listed(t, d))
  }

  ghost predicate TreeOk(t: Tree) { ROOT in t && forall d :: d in t ==> DirOk(t, d) }

  // ---- looking up ----------------------------------------------------------

  /** search_dir_entry: the first slot with the name, whatever its type. */
  function Find(slots: seq<Entry>, name: string): (r: int)
    ensures r == -1 || (0 <= r < |slots| && slots[r].name == name)
    ensures forall i :: 0 <= i < |slots| && slots[i].name == name ==> 0 <= r <= i
  {
    FindFrom(slots, name, 0)
  }

  function FindFrom(slots: seq<Entry>, name: string, k: nat): (r: int)
    requires k <= |slots|
    ensures r == -1 || (k <= r < |slots| && slots[r].name == name)
    ensures forall i :: k <= i < |slots| && slots[i].name == name ==> 0 <= r <= i
    decreases |slots| - k
  {
    if k == |slots| then -1 else if slots[k].name == name then k else FindFrom(slots, name, k + 1)
  }

  /** get_child_dir_name: the first slot with the inode number. */
  function FindIno(slots: seq<Entry>, ino: nat, k: nat): (r: int)
    requires k <= |slots|
    ensures r == -1 || (k <= r < |slots| && slots[r].ino == ino)
    ensures forall i :: k <= i < |slots| && slots[i].ino == ino ==> 0 <= r <= i
    decreases |slots| - k
  {
    if k == |slots| then -1 else if slots[k].ino == ino then k else FindIno(slots, ino, k + 1)
  }

  /** Names from the root down to `d`. */
  ghost function PathOf(t: Tree, d: nat): seq<string>
    requires TreeOk(t) && d in t
    decreases t[d].depth
  {
    if d == ROOT then [] else
    assert DirOk(t, d);
    var p := ParentOf(t, d);
    PathOf(t, p) + [NameIn(t, p, d)]
  }

  /** The name under which `p` lists `d`. */
  ghost function NameIn(t: Tree, p: nat, d: nat): (c: string)
    requires TreeOk(t) && d in t && d != ROOT && DotsOk(t, d) && p == ParentOf(t, d)
    ensures Plain([c])
    ensures var i := FindIno(t[p].slots, d, 0); i >= 2 && t[p].slots[i].name == c && t[p].slots[i].ftype.Directory?
  {
    NameFound(t, p, d);
    t[p].slots[FindIno(t[p].slots, d, 0)].name
  }

  /** The scan by inode number passes "." and ".." of the parent and free slots,
      none of which can have the child's number. */
  lemma NameFound(t: Tree, p: nat, d: nat)
    requires TreeOk(t) && d in t && d != ROOT && DotsOk(t, d) && p == ParentOf(t, d)
    ensures var i := FindIno(t[p].slots, d, 0);
            i >= 2 && Plain([t[p].slots[i].name]) && t[p].slots[i].ftype.Directory?
  {
    hide TreeOk, Plain;
    TreeParts(t, p);
    TreeParts(t, d);
    TreeParts(t, ParentOf(t, p));
    var i := FindIno(t[p].slots, d, 0);
    assert i >= 0 && p != d && t[p].slots[1].ino != d;
    assert EntryOk(t, p, t[p].slots[i]);
  }

  /** One step of search_file through directories. */
  function Step(t: Tree, d: nat, c: string): (r: Option<nat>)
    ensures r.Some? ==> d in t && exists i :: 0 <= i < |t[d].slots| && t[d].slots[i].name == c && t[d].slots[i].ino == r.value
  {
    if d !in t then None else
    var i := Find(t[d].slots, c);
    if i >= 0 && t[d].slots[i].ftype.Directory? then Some(t[d].slots[i].ino) else None
  }

  /** Following one component moves along the tree as Push moves along the path. */
  lemma StepPath(t: Tree, d: nat, c: string)
    requires TreeOk(t) && d in t && IsName(c) && Step(t, d, c).Some?
    ensures Step(t, d, c).value in t
    ensures PathOf(t, Step(t, d, c).value) == Push(PathOf(t, d), c)
  {
    hide SlotsOk, Listed, EntryOk, NameIn, PathOf, TreeOk;
    TreeParts(t, d);
    if c == "." {
      assert t[d].slots[0].name == c;
    } else if c == ".." {
      assert t[d].slots[1].name == c && Find(t[d].slots, c) == 1;
      ParentPath(t, d);
    } else {
      ChildPath(t, d, c);
    }
  }

  lemma ParentPath(t: Tree, d: nat)
    requires TreeOk(t) && d in t && DotsOk(t, d)
    ensures PathOf(t, ParentOf(t, d)) == Push(PathOf(t, d), "..")
  {
    hide SlotsOk, Listed, EntryOk, TreeOk;
    if d != ROOT {
      var p := ParentOf(t, d);
      assert (PathOf(t, p) + [NameIn(t, p, d)])[..|PathOf(t, p)|] == PathOf(t, p);
    }
  }

  lemma ChildPath(t: Tree, d: nat, c: string)
    requires TreeOk(t) && d in t && IsName(c) && Step(t, d, c).Some? && c != "." && c != ".."
    ensures Step(t, d, c).value in t
    ensures PathOf(t, Step(t, d, c).value) == PathOf(t, d) + [c]
  {
    hide Listed, TreeOk;
    TreeParts(t, d);
    var i := Find(t[d].slots, c);
    assert i >= 2 && t[d].slots[i] != FREE && EntryOk(t, d, t[d].slots[i]);
    var e := t[d].slots[i].ino;
    assert e in t && e != ROOT && ParentOf(t, e) == d;
    TreeParts(t, e);
    ChildName(t, d, e, i);
    ChildPathStep(t, d, e);
  }

  lemma ChildPathStep(t: Tree, d: nat, e: nat)
    requires TreeOk(t) && d in t && e in t && e != ROOT && DotsOk(t, e) && ParentOf(t, e) == d
    ensures PathOf(t, e) == PathOf(t, d) + [NameIn(t, d, e)]
  {
    hide TreeOk, SlotsOk, NameIn;
  }

  lemma ChildName(t: Tree, d: nat, e: nat, i: nat)
    requires TreeOk(t) && d in t && e in t && e != ROOT && DotsOk(t, e) && ParentOf(t, e) == d
    requires SlotsOk(t, d) && 2 <= i < |t[d].slots| && t[d].slots[i] != FREE && t[d].slots[i].ino == e
    ensures NameIn(t, d, e) == t[d].slots[i].name
  {
    hide TreeOk, EntryOk, FindIno;
    NameFound(t, d, e);
    assert t[d].slots[FindIno(t[d].slots, e, 0)] != FREE;
  }

  function Resolve(t: Tree, d: nat, cs: seq<string>): Option<nat>
    decreases |cs|
  {
    if cs == [] then Some(d) else
    var r := Step(t, d, cs[0]);
    if r.None? then None else Resolve(t, r.value, cs[1..])
  }

  /** A path that names a directory leads to the directory whose own path is the
      normal form, "." and ".." included. */
  lemma {:induction false} ResolvePath(t: Tree, d: nat, cs: seq<string>)
    requires TreeOk(t) && d in t && Names(cs) && Resolve(t, d, cs).Some?
    ensures Resolve(t, d, cs).value in t
    ensures PathOf(t, Resolve(t, d, cs).value) == Normal(PathOf(t, d), cs)
    decreases |cs|
  {
    hide TreeOk, PathOf, Step, Push;
    if cs != [] {
      StepPath(t, d, cs[0]);
      ResolvePath(t, Step(t, d, cs[0]).value, cs[1..]);
    }
  }

  lemma {:induction false} PathOfPlain(t: Tree, d: nat)
    requires TreeOk(t) && d in t
    ensures Plain(PathOf(t, d))
    decreases t[d].depth
  {
    hide SlotsOk, Listed, EntryOk, TreeOk;
    if d != ROOT {
      TreeParts(t, d);
      PathOfPlain(t, ParentOf(t, d));
    }
  }

  // ---- mkdir, file creation, rmdir, unlink ---------------------------------

  /** sync_dir_entry: the first free slot, else a new one at the end. */
  function Place(slots: seq<Entry>, k: nat): (r: nat)
    requires k <= |slots|
    ensures k <= r <= |slots| && (r < |slots| ==> slots[r].ftype.Unknown?)
    decreases |slots| - k
  {
    if k == |slots| || slots[k].ftype.Unknown? then k else Place(slots, k + 1)
  }

  function Put(slots: seq<Entry>, e: Entry): (r: seq<Entry>) {
    var k := Place(slots, 0);
    if k < |slots| then slots[k := e] else slots + [e]
  }

  /** What Put does, seen slot by slot. */
  ghost predicate PutAt(slots: seq<Entry>, r: seq<Entry>, k: nat, e: Entry) {
    && 2 <= k <= |slots| && |r| == (if k < |slots| then |slots| else |slots| + 1) && r[k] == e
    && (k < |slots| ==> slots[k] == FREE)
    && (forall i :: 0 <= i < |slots| && i != k ==> r[i] == slots[i])
  }

  lemma PutFacts(t: Tree, d: nat, e: Entry)
    requires d in t && DotsOk(t, d) && SlotsOk(t, d)
    ensures PutAt(t[d].slots, Put(t[d].slots, e), Place(t[d].slots, 0), e)
  {
    var k := Place(t[d].slots, 0);
    assert 2 <= k < |t[d].slots| ==> EntryOk(t, d, t[d].slots[k]);
  }

  /** `t'` is `t` with entry `e` in slot `k` of `d`, and a new directory for it. */
  ghost predicate Grown(t: Tree, t': Tree, d: nat, e: Entry, k: nat) {
    && d in t && d in t' && t'[d].depth == t[d].depth && PutAt(t[d].slots, t'[d].slots, k, e)
    && (forall b :: b in t ==> b in t' && (b != d ==> t'[b] == t[b]))
    && (forall b :: b in t' ==> b in t || (e.ftype.Directory? && b == e.ino))
    && (e.ftype.Directory? ==>
          e.ino in t' && t'[e.ino] == Dir(t[d].depth + 1, [Entry(".", e.ino, Directory), Entry("..", d, Directory)]))
  }

  ghost predicate Unused(t: Tree, ino: nat) {
    ino != ROOT && ino !in t && forall d, i :: d in t && 0 <= i < |t[d].slots| ==> t[d].slots[i].ino != ino
  }

  function WithFile(t: Tree, d: nat, name: string, ino: nat): Tree
    requires d in t
  {
    t[d := t[d].(slots := Put(t[d].slots, Entry(name, ino, Regular)))]
  }

  function WithDir(t: Tree, d: nat, name: string, ino: nat): Tree
    requires d in t
  {
    t[d := t[d].(slots := Put(t[d].slots, Entry(name, ino, Directory)))]
     [ino := Dir(t[d].depth + 1, [Entry(".", ino, Directory), Entry("..", d, Directory)])]
  }

  ghost predicate CanAdd(t: Tree, d: nat, name: string, ino: nat) {
    && TreeOk(t) && d in t && Plain([name]) && |name| < MAX_FILE_NAME_LEN
    && Find(t[d].slots, name) == -1 && Unused(t, ino)
  }

  lemma TreeParts(t: Tree, d: nat)
    requires TreeOk(t) && d in t
    ensures DotsOk(t, d) && SlotsOk(t, d) && (d != ROOT ==> Listed(t, d))
  {
  }

  /** An old directory stays well formed. */
  lemma AddSlots(t: Tree, t': Tree, d: nat, e: Entry, k: nat, b: nat)
    requires CanAdd(t, d, e.name, e.ino) && !e.ftype.Unknown? && b in t && Grown(t, t', d, e, k)
    ensures DotsOk(t', b) && SlotsOk(t', b)
  {
    hide TreeOk, Plain, Listed, Find;
    TreeParts(t, b);
    TreeParts(t, ParentOf(t, b));
    forall i | 2 <= i < |t'[b].slots|
      ensures EntryOk(t', b, t'[b].slots[i])
    {
      if b == d && i == k {
        NewEntryOk(t, t', d, e, k);
      } else {
        assert EntryOk(t, b, t[b].slots[i]);
        EntryKept(t, t', d, e, k, b, t[b].slots[i]);
      }
    }
    if b == d { NewNames(t, d, e); }
  }

  lemma EntryKept(t: Tree, t': Tree, d: nat, e: Entry, k: nat, b: nat, x: Entry)
    requires Grown(t, t', d, e, k) && EntryOk(t, b, x) && x.ino != e.ino
    ensures EntryOk(t', b, x)
  {
    hide Plain;
  }

  lemma NewEntryOk(t: Tree, t': Tree, d: nat, e: Entry, k: nat)
    requires CanAdd(t, d, e.name, e.ino) && !e.ftype.Unknown? && Grown(t, t', d, e, k)
    ensures EntryOk(t', d, e)
  {
    hide TreeOk, Plain, Find;
  }

  lemma NewNames(t: Tree, d: nat, e: Entry)
    requires CanAdd(t, d, e.name, e.ino)
    ensures forall i :: 0 <= i < |t[d].slots| ==> t[d].slots[i].name != e.name && t[d].slots[i].ino != e.ino
  {
    hide TreeOk;
  }

  /** A new directory is well formed and listed. */
  lemma AddNew(t: Tree, t': Tree, d: nat, e: Entry, k: nat)
    requires CanAdd(t, d, e.name, e.ino) && e.ftype.Directory? && Grown(t, t', d, e, k)
    ensures DotsOk(t', e.ino) && SlotsOk(t', e.ino) && Listed(t', e.ino)
  {
    hide TreeOk, Plain, Find, EntryOk;
    assert t'[d].slots[k] == e;
  }

  lemma AddListed(t: Tree, t': Tree, d: nat, e: Entry, k: nat, c: nat)
    requires TreeOk(t) && Grown(t, t', d, e, k) && c in t && c != ROOT && DotsOk(t', c)
    ensures Listed(t', c)
  {
    hide TreeOk, Plain, Find, EntryOk, SlotsOk;
    TreeParts(t, c);
    var p := ParentOf(t, c);
    assert t'[c].slots[1] == t[c].slots[1];
    var i :| 2 <= i < |t[p].slots| && t[p].slots[i].ino == c && t[p].slots[i].ftype.Directory?;
    assert t'[p].slots[i] == t[p].slots[i];
  }

  lemma GrownTree(t: Tree, t': Tree, d: nat, e: Entry, k: nat)
    requires CanAdd(t, d, e.name, e.ino) && !e.ftype.Unknown? && Grown(t, t', d, e, k)
    ensures TreeOk(t')
  {
    hide Plain, Find, EntryOk, DirOk, PutAt;
    forall b | b in t'
      ensures DirOk(t', b)
    {
      GrownDir(t, t', d, e, k, b);
    }
  }

  lemma GrownDir(t: Tree, t': Tree, d: nat, e: Entry, k: nat, b: nat)
    requires CanAdd(t, d, e.name, e.ino) && !e.ftype.Unknown? && Grown(t, t', d, e, k) && b in t'
    ensures DirOk(t', b)
  {
    hide Plain, Find, EntryOk, SlotsOk, Listed, PutAt, TreeOk, Unused;
    if b in t {
      AddSlots(t, t', d, e, k, b);
      if b != ROOT { AddListed(t, t', d, e, k, b); }
    } else {
      AddNew(t, t', d, e, k);
    }
  }

  /** mkdir and file creation keep the tree. */
  lemma AddTree(t: Tree, d: nat, name: string, ino: nat)
    requires CanAdd(t, d, name, ino)
    ensures TreeOk(WithDir(t, d, name, ino)) && TreeOk(WithFile(t, d, name, ino))
  {
    hide Plain, Find, TreeOk, Put, Place;
    TreeParts(t, d);
    var k := Place(t[d].slots, 0);
    PutFacts(t, d, Entry(name, ino, Directory));
    PutFacts(t, d, Entry(name, ino, Regular));
    GrownTree(t, WithDir(t, d, name, ino), d, Entry(name, ino, Directory), k);
    GrownTree(t, WithFile(t, d, name, ino), d, Entry(name, ino, Regular), k);
  }

  /** Directory entry `i` of `d` cleared; a directory also leaves the tree. */
  function Removed(t: Tree, d: nat, i: nat): Tree
    requires d in t && i < |t[d].slots|
  {
    (t - {if t[d].slots[i].ftype.Directory? then t[d].slots[i].ino else d})
      [d := t[d].(slots := t[d].slots[i := FREE])]
  }

  /** rmdir wants the directory empty, as dir_is_empty tests it. */
  ghost predicate CanRemove(t: Tree, d: nat, i: nat) {
    && TreeOk(t) && d in t && 2 <= i < |t[d].slots| && t[d].slots[i] != FREE
    && (t[d].slots[i].ftype.Directory? ==> t[d].slots[i].ino in t && Empty(t, t[d].slots[i].ino))
  }

  ghost predicate Empty(t: Tree, c: nat)
    requires c in t
  {
    forall j :: 2 <= j < |t[c].slots| ==> t[c].slots[j] == FREE
  }

  /** Only the removed entry pointed to the removed directory. */
  lemma OnlyEntry(t: Tree, d: nat, i: nat, b: nat, j: nat)
    requires TreeOk(t) && d in t && 2 <= i < |t[d].slots| && t[d].slots[i] != FREE && t[d].slots[i].ftype.Directory?
    requires b in t && 2 <= j < |t[b].slots| && t[b].slots[j] != FREE && t[b].slots[j].ino == t[d].slots[i].ino
    ensures b == d && j == i
  {
    hide TreeOk, Plain, Listed;
    TreeParts(t, d);
    TreeParts(t, b);
    assert EntryOk(t, d, t[d].slots[i]) && EntryOk(t, b, t[b].slots[j]);
  }

  /** Nobody lives below an empty directory. */
  lemma NoChildren(t: Tree, c: nat, b: nat)
    requires TreeOk(t) && c in t && Empty(t, c) && b in t && b != ROOT && |t[b].slots| >= 2
    ensures ParentOf(t, b) != c
  {
    hide SlotsOk, EntryOk;
    assert DirOk(t, b);
  }

  lemma RemoveSlots(t: Tree, d: nat, i: nat, b: nat)
    requires CanRemove(t, d, i) && b in Removed(t, d, i)
    ensures b in t && DotsOk(Removed(t, d, i), b) && SlotsOk(Removed(t, d, i), b)
  {
    hide TreeOk, Plain, Listed;
    var t' := Removed(t, d, i);
    TreeParts(t, d);
    TreeParts(t, b);
    TreeParts(t, ParentOf(t, b));
    assert EntryOk(t, d, t[d].slots[i]);
    if t[d].slots[i].ftype.Directory? {
      var c := t[d].slots[i].ino;
      TreeParts(t, c);
      assert c != d;
      if b != ROOT { NoChildren(t, c, b); }
    }
    forall j | 2 <= j < |t'[b].slots|
      ensures EntryOk(t', b, t'[b].slots[j])
    {
      assert EntryOk(t, b, t[b].slots[j]);
      if t[d].slots[i].ftype.Directory? && t[b].slots[j] != FREE && t[b].slots[j].ino == t[d].slots[i].ino {
        OnlyEntry(t, d, i, b, j);
      }
    }
  }

  lemma RemoveListed(t: Tree, d: nat, i: nat, c: nat)
    requires CanRemove(t, d, i) && c in Removed(t, d, i) && c in t && c != ROOT && DotsOk(Removed(t, d, i), c)
    ensures Listed(Removed(t, d, i), c)
  {
    hide TreeOk, Plain, EntryOk, SlotsOk;
    var t' := Removed(t, d, i);
    TreeParts(t, c);
    var p := ParentOf(t, c);
    var j :| 2 <= j < |t[p].slots| && t[p].slots[j].ino == c && t[p].slots[j].ftype.Directory?;
    assert t'[p].slots[j] == t[p].slots[j];
  }

  /** rmdir and unlink keep the tree. */
  lemma RemoveTree(t: Tree, d: nat, i: nat)
    requires CanRemove(t, d, i)
    ensures TreeOk(Removed(t, d, i))
  {
    hide Plain, EntryOk, DirOk;
    var t' := Removed(t, d, i);
    RootStays(t, d, i);
    forall b | b in t'
      ensures DirOk(t', b)
    {
      RemoveDir(t, d, i, b);
    }
  }

  lemma RemoveDir(t: Tree, d: nat, i: nat, b: nat)
    requires CanRemove(t, d, i) && b in Removed(t, d, i)
    ensures DirOk(Removed(t, d, i), b)
  {
    hide Plain, EntryOk, SlotsOk, Listed, CanRemove, Removed;
    RemoveSlots(t, d, i, b);
    if b != ROOT { RemoveListed(t, d, i, b); }
  }

  lemma RootStays(t: Tree, d: nat, i: nat)
    requires CanRemove(t, d, i)
    ensures t[d].slots[i].ino != ROOT
  {
    assert DirOk(t, d);
    assert EntryOk(t, d, t[d].slots[i]);
  }

  /** sys_rmdir once the path is searched: delete_dir_entry looks in the directory
      before the last name for the inode number, past "." and "..", and the inode
      is released whether or not an entry was found. */
  function RmdirAt(t: Tree, d: nat, x: nat): Tree
    requires d in t && |t[d].slots| >= 2
  {
    var i := FindIno(t[d].slots, x, 2);
    if i == -1 then t - {x} else Removed(t, d, i)
  }

  /** Removing an empty directory by path keeps the tree exactly when the last
      name is not ".": with "." the directory goes but its entry stays. */
  lemma RmdirKeepsTree(t: Tree, d: nat, c: string)
    requires TreeOk(t) && d in t && |t[d].slots| >= 2 && IsName(c)
    requires Step(t, d, c).Some? && Step(t, d, c).value in t && Step(t, d, c).value != ROOT
    requires Empty(t, Step(t, d, c).value)
    ensures TreeOk(RmdirAt(t, d, Step(t, d, c).value)) <==> c != "."
  {
    hide Plain, Listed;
    var x := Step(t, d, c).value;
    TreeParts(t, d);
    TreeParts(t, x);
    if c == "." {
      RmdirDot(t, d);
    } else if c == ".." {
      assert Find(t[d].slots, c) == 1;
      NoChildren(t, x, d);
    } else {
      RmdirNamed(t, d, c);
    }
  }

  lemma RmdirNamed(t: Tree, d: nat, c: string)
    requires TreeOk(t) && d in t && |t[d].slots| >= 2 && IsName(c) && c != "." && c != ".."
    requires Step(t, d, c).Some? && Step(t, d, c).value in t && Step(t, d, c).value != ROOT
    requires Empty(t, Step(t, d, c).value)
    ensures TreeOk(RmdirAt(t, d, Step(t, d, c).value))
  {
    hide Plain, Listed;
    var x := Step(t, d, c).value;
    TreeParts(t, d);
    var j := Find(t[d].slots, c);
    assert j >= 2 && EntryOk(t, d, t[d].slots[j]);
    var i := FindIno(t[d].slots, x, 2);
    assert t[d].slots[i] != FREE;
    RemoveTree(t, d, i);
  }

  lemma RmdirDot(t: Tree, d: nat)
    requires TreeOk(t) && d in t && |t[d].slots| >= 2 && d != ROOT && Empty(t, d) && Step(t, d, ".").Some?
    ensures Step(t, d, ".").value == d && !TreeOk(RmdirAt(t, d, d))
  {
    hide Plain, TreeOk, Listed, SlotsOk;
    TreeParts(t, d);
    assert t[d].slots[0].name == "." && Find(t[d].slots, ".") == 0;
    assert FindIno(t[d].slots, d, 2) == -1;
    Dangling(t, d);
  }

  lemma Dangling(t: Tree, d: nat)
    requires TreeOk(t) && d in t && d != ROOT
    ensures !TreeOk(t - {d})
  {
    hide Plain, TreeOk;
    TreeParts(t, d);
    var p := ParentOf(t, d);
    var i :| 2 <= i < |t[p].slots| && t[p].slots[i].ino == d && t[p].slots[i].ftype.Directory?;
    assert p != d && !EntryOk(t - {d}, p, t[p].slots[i]);
    if TreeOk(t - {d}) { TreeParts(t - {d}, p); }
  }

  /** The formatted partition: the root directory alone. */
  const FORMATTED: Tree := map[ROOT := Dir(0, [Entry(".", ROOT, Directory), Entry("..", ROOT, Directory)])]

  lemma FormattedOk()
    ensures TreeOk(FORMATTED)
  {
    hide EntryOk, Listed;
    assert DirOk(FORMATTED, ROOT);
  }

  // ---- search_file, chdir, getcwd ------------------------------------------

  /** search_file's result: a directory, the first regular file met on the way,
      or the directory and the names left over where a name was missing. */
  datatype Lookup = Folder(ino: nat) | File(fino: nat) | NotFound(dir: nat, rest: seq<string>)

  /** `last` is the inode number of the entry copied last. */
  function SearchFrom(t: Tree, d: nat, cs: seq<string>, last: nat): Lookup
    decreases |cs|
  {
    if cs == [] then Folder(last)
    else if d !in t || Find(t[d].slots, cs[0]) == -1 then NotFound(d, cs)
    else
      var e := t[d].slots[Find(t[d].slots, cs[0])];
      match e.ftype
      case Directory => SearchFrom(t, e.ino, cs[1..], e.ino)
      case Regular => File(e.ino)
      case Unknown => SearchFrom(t, d, cs[1..], e.ino)
  }

  /** search_file. `junk` is what the entry buffer holds before the first lookup;
      a path of two or more slashes reaches the end with nothing looked up. */
  function Search(t: Tree, p: string, junk: nat): Lookup {
    if p == "/" || p == "/." || p == "/.." then Folder(ROOT) else SearchFrom(t, ROOT, Components(p), junk)
  }

  lemma {:induction false} SearchResolves(t: Tree, d: nat, cs: seq<string>, last: nat)
    requires TreeOk(t) && d in t && Names(cs) && SearchFrom(t, d, cs, last).Folder? && cs != []
    ensures Resolve(t, d, cs) == Some(SearchFrom(t, d, cs, last).ino)
    decreases |cs|
  {
    hide Names, TreeOk;
    NamesTail(cs);
    var e := t[d].slots[Find(t[d].slots, cs[0])];
    FoundKnown(t, d, cs[0]);
    if |cs| > 1 {
      StepPath(t, d, cs[0]);
      SearchResolves(t, e.ino, cs[1..], e.ino);
    }
  }

  lemma {:induction false} ResolveOn(t: Tree, d: nat, cs: seq<string>, c: string)
    requires Resolve(t, d, cs).Some?
    ensures Resolve(t, d, cs + [c]) == Step(t, Resolve(t, d, cs).value, c)
    decreases |cs|
  {
    hide Step;
    if cs == [] {
      assert (cs + [c])[0] == c && (cs + [c])[1..] == [];
    } else {
      assert (cs + [c])[0] == cs[0] && (cs + [c])[1..] == cs[1..] + [c];
      ResolveOn(t, Step(t, d, cs[0]).value, cs[1..], c);
    }
  }

  /** Every directory is found under its own path. */
  lemma {:induction false} PathResolves(t: Tree, d: nat)
    requires TreeOk(t) && d in t
    ensures Resolve(t, ROOT, PathOf(t, d)) == Some(d)
    decreases t[d].depth
  {
    hide NameIn, Step, Resolve;
    if d == ROOT {
      ResolveNone(t);
    } else {
      TreeParts(t, d);
      var p := ParentOf(t, d);
      PathResolves(t, p);
      ResolveOn(t, ROOT, PathOf(t, p), NameIn(t, p, d));
      NameLeads(t, p, d);
    }
  }

  lemma ResolveNone(t: Tree)
    ensures Resolve(t, ROOT, []) == Some(ROOT)
  {
  }

  /** The name under which `p` lists `d` leads to `d`. */
  lemma NameLeads(t: Tree, p: nat, d: nat)
    requires TreeOk(t) && d in t && d != ROOT && DotsOk(t, d) && p == ParentOf(t, d)
    ensures Step(t, p, NameIn(t, p, d)) == Some(d)
  {
    hide TreeOk, Listed, EntryOk;
    TreeParts(t, p);
    NameFound(t, p, d);
    var i := FindIno(t[p].slots, d, 0);
    var c := NameIn(t, p, d);
    var j := Find(t[p].slots, c);
    assert t[p].slots[i].name == c && t[p].slots[0].name == "." && t[p].slots[1].name == "..";
    assert [c][0] == c;
    assert j >= 2;
    assert t[p].slots[i] != FREE && t[p].slots[j] != FREE by { FreeName(t, p, j, c); }
  }

  lemma FreeName(t: Tree, p: nat, j: nat, c: string)
    requires p in t && j < |t[p].slots| && t[p].slots[j].name == c && Plain([c])
    ensures t[p].slots[j] != FREE
  {
    assert IsName([c][0]);
  }

  /** Names [0, k) lead to directory `d2`, and name `k` is missing there. */
  predicate MissingAt(t: Tree, d: nat, cs: seq<string>, k: nat, d2: nat) {
    k < |cs| && Resolve(t, d, cs[..k]) == Some(d2) && d2 in t && Find(t[d2].slots, cs[k]) == -1
  }

  /** The last name alone is missing, in directory `d`. */
  predicate LastMissing(t: Tree, cs: seq<string>, d: nat) { cs != [] && MissingAt(t, ROOT, cs, |cs| - 1, d) }

  /** search_file, in terms of where the names lead: a directory iff they lead to
      one, and nothing iff one is missing where those before it lead. */
  lemma {:induction false} SearchExactly(t: Tree, d: nat, cs: seq<string>, last: nat)
    requires TreeOk(t) && d in t && Names(cs) && cs != []
    ensures SearchFrom(t, d, cs, last).Folder? <==> Resolve(t, d, cs).Some?
    ensures SearchFrom(t, d, cs, last).NotFound? ==>
      |SearchFrom(t, d, cs, last).rest| <= |cs| && var k := |cs| - |SearchFrom(t, d, cs, last).rest|;
        MissingAt(t, d, cs, k, SearchFrom(t, d, cs, last).dir) && SearchFrom(t, d, cs, last).rest == cs[k..]
    ensures (exists k: nat, d2: nat :: MissingAt(t, d, cs, k, d2)) ==> SearchFrom(t, d, cs, last).NotFound?
    decreases |cs|
  {
    hide Names, TreeOk, FindFrom, MissingAt;
    NamesTail(cs);
    forall k: nat, a: nat | MissingAt(t, d, cs, k, a) ensures Missed(t, d, cs, k, a) {
      MissingStep(t, d, cs, k, a);
    }
    if Find(t[d].slots, cs[0]) == -1 {
      MissingHere(t, d, cs);
    } else {
      FoundKnown(t, d, cs[0]);
      var e := t[d].slots[Find(t[d].slots, cs[0])];
      if e.ftype.Directory? && |cs| > 1 {
        StepPath(t, d, cs[0]);
        SearchExactly(t, e.ino, cs[1..], e.ino);
        var r := SearchFrom(t, e.ino, cs[1..], e.ino);
        if r.NotFound? { MissingBack(t, d, cs, |cs| - |r.rest|, r.dir); }
      } else {
        forall k: nat, a: nat ensures !MissingAt(t, d, cs, k, a) {
          if Missed(t, d, cs, k, a) { NothingLeft(t, e.ino, cs[1..], k - 1, a); }
        }
      }
    }
  }

  /** A name missing further on is missing after the first step. */
  predicate Missed(t: Tree, d: nat, cs: seq<string>, k: nat, a: nat) {
    && cs != [] && d in t && (k == 0 <==> Find(t[d].slots, cs[0]) == -1)
    && (k > 0 ==> Step(t, d, cs[0]).Some? && MissingAt(t, Step(t, d, cs[0]).value, cs[1..], k - 1, a))
  }

  lemma MissingStep(t: Tree, d: nat, cs: seq<string>, k: nat, a: nat)
    requires MissingAt(t, d, cs, k, a)
    ensures Missed(t, d, cs, k, a)
  {
    hide FindFrom;
    if k == 0 {
      assert cs[..0] == [];
    } else {
      assert cs[..k][0] == cs[0] && cs[..k][1..] == cs[1..][..k - 1];
    }
  }

  lemma MissingHere(t: Tree, d: nat, cs: seq<string>)
    requires cs != [] && d in t && Find(t[d].slots, cs[0]) == -1
    ensures MissingAt(t, d, cs, 0, d)
  {
    assert cs[..0] == [];
  }

  lemma MissingBack(t: Tree, d: nat, cs: seq<string>, k: nat, a: nat)
    requires cs != [] && k > 0 && Step(t, d, cs[0]).Some? && MissingAt(t, Step(t, d, cs[0]).value, cs[1..], k - 1, a)
    ensures MissingAt(t, d, cs, k, a)
  {
    hide FindFrom, Step;
    assert cs[..k][0] == cs[0] && cs[..k][1..] == cs[1..][..k - 1];
  }

  lemma NothingLeft(t: Tree, d: nat, cs: seq<string>, k: nat, a: nat)
    requires cs == []
    ensures !MissingAt(t, d, cs, k, a)
  {
  }

  /** What a search of path `p` comes to, where it has names. */
  ghost predicate Searched(t: Tree, p: string, r: Lookup) {
    var cs := Components(p);
    cs != [] ==>
      && (r.Folder? <==> Resolve(t, ROOT, cs).Some?) && (r.Folder? ==> r.ino == Resolve(t, ROOT, cs).value)
      && (r.NotFound? <==> exists k: nat, d: nat :: MissingAt(t, ROOT, cs, k, d))
      && (r.NotFound? ==> |r.rest| <= |cs| && MissingAt(t, ROOT, cs, |cs| - |r.rest|, r.dir) && r.rest == cs[|cs| - |r.rest|..])
  }

  lemma SearchMeans(t: Tree, p: string, junk: nat)
    requires TreeOk(t) && p != "" && p[0] == '/'
    ensures Searched(t, p, Search(t, p, junk))
  {
    hide TreeOk, Names, Components, SearchFrom, FindFrom, Resolve;
    ComponentsAreNames(p);
    Specials();
    RootPath(t);
    var cs := Components(p);
    if p == "/." || p == "/.." {
      DotRoot(t);
      OneMissing(t, cs);
    } else if cs != [] && p != "/" {
      SearchExactly(t, ROOT, cs, junk);
      if Search(t, p, junk).Folder? { SearchResolves(t, ROOT, cs, junk); }
    }
  }

  /** Exactly the last name is missing iff one name is left over. */
  lemma MkdirMeans(t: Tree, p: string, r: Lookup)
    requires Searched(t, p, r)
    ensures var cs := Components(p);
      cs != [] ==> (r.NotFound? && |r.rest| == 1 <==> exists d: nat :: LastMissing(t, cs, d))
  {
    hide Components, Resolve;
    var cs := Components(p);
    if cs != [] {
      if d: nat :| LastMissing(t, cs, d) {
        var k := |cs| - |r.rest|;
        MissingOnce(t, ROOT, cs, k, r.dir, |cs| - 1, d);
      }
      assert r.NotFound? && |r.rest| == 1 ==> LastMissing(t, cs, r.dir);
    }
  }

  /** The first missing name ends the way. */
  lemma {:induction false} MissingOnce(t: Tree, d: nat, cs: seq<string>, k: nat, a: nat, m: nat, b: nat)
    requires MissingAt(t, d, cs, k, a) && MissingAt(t, d, cs, m, b)
    ensures k == m
    decreases |cs|
  {
    hide FindFrom, MissingAt, Resolve;
    MissingStep(t, d, cs, k, a);
    MissingStep(t, d, cs, m, b);
    if k > 0 {
      MissingOnce(t, Step(t, d, cs[0]).value, cs[1..], k - 1, a, m - 1, b);
    }
  }

  /** "." and ".." of the root lead to the root. */
  lemma DotRoot(t: Tree)
    requires TreeOk(t)
    ensures ROOT in t && Resolve(t, ROOT, ["."]) == Some(ROOT) == Resolve(t, ROOT, [".."])
    ensures Find(t[ROOT].slots, ".") == 0 && Find(t[ROOT].slots, "..") == 1
  {
    hide TreeOk, SlotsOk, Listed, PathOf;
    RootPath(t);
    TreeParts(t, ROOT);
    assert t[ROOT].slots[0].name == "." && t[ROOT].slots[1].name == "..";
    assert ["."][1..] == [] && [".."][1..] == [];
  }

  lemma OneMissing(t: Tree, cs: seq<string>)
    requires |cs| == 1 && ROOT in t && Find(t[ROOT].slots, cs[0]) != -1
    ensures forall k: nat, d: nat :: !MissingAt(t, ROOT, cs, k, d)
  {
    assert cs[..0] == [];
  }

  /** The regular file that the names lead to from `d`. */
  function FileAt(t: Tree, d: nat, cs: seq<string>): Option<nat>
    decreases |cs|
  {
    if cs == [] || d !in t || Find(t[d].slots, cs[0]) == -1 then None
    else
      var e := t[d].slots[Find(t[d].slots, cs[0])];
      if |cs| == 1 then (if e.ftype.Regular? then Some(e.ino) else None)
      else if e.ftype.Directory? then FileAt(t, e.ino, cs[1..])
      else None
  }

  /** How many names search_file looks up before it stops: at a missing name, at
      the first regular file, or at the end. */
  function Used(t: Tree, d: nat, cs: seq<string>): nat
    decreases |cs|
  {
    if cs == [] || d !in t || Find(t[d].slots, cs[0]) == -1 then 0
    else
      var e := t[d].slots[Find(t[d].slots, cs[0])];
      if e.ftype.Directory? then 1 + Used(t, e.ino, cs[1..]) else 1
  }

  /** sys_unlink removes the file that search_file stops at. That is the file the
      path names exactly when the search used all its names; otherwise, as for
      "/f/x" with a file "/f", it is the one that the names used so far lead to. */
  lemma {:induction false} UnlinkExactly(t: Tree, d: nat, cs: seq<string>, last: nat)
    requires TreeOk(t) && d in t && Names(cs)
    ensures FileAt(t, d, cs).Some? ==> SearchFrom(t, d, cs, last) == File(FileAt(t, d, cs).value)
    ensures SearchFrom(t, d, cs, last).File? ==>
      && 1 <= Used(t, d, cs) <= |cs|
      && FileAt(t, d, cs[..Used(t, d, cs)]) == Some(SearchFrom(t, d, cs, last).fino)
      && (FileAt(t, d, cs) == Some(SearchFrom(t, d, cs, last).fino) <==> Used(t, d, cs) == |cs|)
    decreases |cs|
  {
    hide Names, TreeOk, FindFrom;
    if cs != [] && Find(t[d].slots, cs[0]) != -1 {
      NamesTail(cs);
      FoundKnown(t, d, cs[0]);
      var e := t[d].slots[Find(t[d].slots, cs[0])];
      if e.ftype.Directory? {
        StepPath(t, d, cs[0]);
        UnlinkExactly(t, e.ino, cs[1..], e.ino);
        var k := Used(t, e.ino, cs[1..]);
        if SearchFrom(t, e.ino, cs[1..], e.ino).File? {
          assert cs[..k + 1][0] == cs[0] && cs[..k + 1][1..] == cs[1..][..k];
        }
      } else {
        assert cs[..1][0] == cs[0];
      }
    }
  }

  lemma OnePlain(c: string)
    requires IsName(c) && c != "." && c != ".."
    ensures Plain([c])
  {
  }

  lemma NamesTail(cs: seq<string>)
    requires Names(cs) && cs != []
    ensures IsName(cs[0]) && Names(cs[1..])
  {
  }

  /** A slot found by name is not a free one. */
  lemma FoundKnown(t: Tree, d: nat, c: string)
    requires TreeOk(t) && d in t && IsName(c) && Find(t[d].slots, c) != -1
    ensures !t[d].slots[Find(t[d].slots, c)].ftype.Unknown?
  {
    hide TreeOk, Listed;
    TreeParts(t, d);
    var i := Find(t[d].slots, c);
    if i >= 2 { assert EntryOk(t, d, t[d].slots[i]); }
  }

  /** chdir(p) followed by getcwd gives the washed form of p, for every path that
      names a directory: with a name in it always, without one exactly when the
      path is "/" or the stale buffer happens to hold the root's number. */
  lemma ChdirGetcwd(t: Tree, p: string, junk: nat)
    requires TreeOk(t) && p != "" && p[0] == '/' && Search(t, p, junk).Folder?
    ensures var d := Search(t, p, junk).ino;
            d in t && Render(PathOf(t, d)) == Washed(p) <==> Components(p) != [] || p == "/" || junk == ROOT
  {
    hide TreeOk, Washed, Names, PathOf, SearchFrom, Components, Normal, Render;
    ComponentsAreNames(p);
    RootPath(t);
    var d := Search(t, p, junk).ino;
    WashedIs(p);
    Specials();
    if p == "/" || p == "/." || p == "/.." {
    } else if Components(p) != [] {
      SearchResolves(t, ROOT, Components(p), junk);
      ResolvePath(t, ROOT, Components(p));
    } else {
      NothingSearched(t, junk);
      if d in t && d != ROOT { NotRootRender(t, d); }
    }
  }

  lemma WashedIs(p: string)
    ensures Washed(p) == Render(Normal([], Components(p)))
  {
  }

  lemma NothingSearched(t: Tree, junk: nat)
    ensures SearchFrom(t, ROOT, [], junk) == Folder(junk)
  {
  }

  lemma NotRootRender(t: Tree, d: nat)
    requires TreeOk(t) && d in t && d != ROOT
    ensures Render(PathOf(t, d)) != Render([])
  {
    hide TreeOk, PathOf, Render;
    NotRootPath(t, d);
    PathOfPlain(t, d);
    ComponentsOfRender(PathOf(t, d));
    ComponentsOfRender([]);
  }

  lemma Specials()
    ensures Components("/") == [] && Components("/.") == ["."] && Components("/..") == [".."]
    ensures Normal([], []) == [] && Normal([], ["."]) == [] && Normal([], [".."]) == []
  {
    assert "/"[1..] == "" && DropSlashes("/") == "";
    ComponentsOfRender(["."]);
    assert ["."][..0] == [] && Joined(["."]) == "" + "/" + ".";
    assert Render(["."]) == "/.";
    ComponentsOfRender([".."]);
    assert [".."][..0] == [] && Joined([".."]) == "" + "/" + "..";
    assert Render([".."]) == "/..";
    assert ["."][1..] == [] && [".."][1..] == [];
  }

  /** The reverse buffer: deepest name first. */
  function RevJoined(ts: seq<string>): string {
    if ts == [] then "" else RevJoined(ts[1..]) + "/" + ts[0]
  }

  lemma LastSlashOfRev(ts: seq<string>, at: int)
    requires Names(ts) && -1 <= at < |RevJoined(ts)|
    requires at >= 0 ==> RevJoined(ts)[at] == '/'
    requires forall i :: at < i < |RevJoined(ts)| ==> RevJoined(ts)[i] != '/'
    ensures at == -1 <==> ts == []
    ensures at >= 0 ==> RevJoined(ts)[..at] == RevJoined(ts[1..]) && RevJoined(ts)[at..] == "/" + ts[0]
  {
    if ts != [] {
      var r := RevJoined(ts[1..]);
      var n := |r|;
      assert RevJoined(ts) == r + "/" + ts[0];
      assert RevJoined(ts)[n] == '/';
      forall i | n < i < |RevJoined(ts)|
        ensures RevJoined(ts)[i] != '/'
      {
        assert RevJoined(ts)[i] == ts[0][i - n - 1] && ts[0][i - n - 1] in ts[0];
      }
      assert at == n;
    }
  }

  class Vfs {
    var t: Tree
    var cwd: nat        // the running process's cwd_inode_nr

    constructor ()
      ensures TreeOk(t) && t == FORMATTED && cwd == ROOT
    {
      t, cwd := FORMATTED, ROOT;
      new;
      FormattedOk();
    }

    /** search_file's loop over the names of the path. */
    method SearchFile(pathname: string, junk: nat) returns (r: Lookup)
      requires TreeOk(t) && pathname != "" && pathname[0] == '/'
      requires forall i :: 0 <= i < |Components(pathname)| ==> |Components(pathname)[i]| < MAX_FILE_NAME_LEN
      ensures r == Search(t, pathname, junk) && Searched(t, pathname, r)
    {
      hide TreeOk, Components, Searched;
      SearchMeans(t, pathname, junk);
      if pathname == "/" || pathname == "/." || pathname == "/.." {
        return Folder(ROOT);
      }
      var parent, last := ROOT, junk;
      var name, sub := PathParse(pathname);
      var left := (if name == "" then [] else [name]) + Rest(sub);
      while name != ""
        invariant left == (if name == "" then [] else [name]) + Rest(sub)
        invariant name == "" ==> sub == None
        invariant SearchFrom(t, ROOT, Components(pathname), junk) == SearchFrom(t, parent, left, last)
        invariant forall i :: 0 <= i < |left| ==> |left[i]| < MAX_FILE_NAME_LEN
        decreases if sub.Some? then |sub.value| + 2 else if name != "" then 1 else 0
      {
        assert left[0] == name && left[1..] == Rest(sub);
        assert |name| < MAX_FILE_NAME_LEN;
        var i: int := if parent in t then Find(t[parent].slots, name) else -1;
        if i == -1 {
          return NotFound(parent, left);
        }
        var e := t[parent].slots[i];
        left := left[1..];
        name := "";
        if sub.Some? {
          name, sub := PathParse(sub.value);
        }
        last := e.ino;
        if e.ftype.Directory? {
          parent := e.ino;
        } else if e.ftype.Regular? {
          return File(e.ino);
        }
      }
      return Folder(last);
    }

    method Chdir(path: string, junk: nat) returns (ok: bool)
      requires TreeOk(t) && path != "" && path[0] == '/'
      requires forall i :: 0 <= i < |Components(path)| ==> |Components(path)[i]| < MAX_FILE_NAME_LEN
      modifies this`cwd
      ensures ok <==> Search(t, path, junk).Folder?
      ensures cwd == if ok then Search(t, path, junk).ino else old(cwd)
      ensures Components(path) != [] ==> (ok <==> Resolve(t, ROOT, Components(path)).Some?)
      ensures Components(path) != [] && ok ==> cwd == Resolve(t, ROOT, Components(path)).value
    {
      hide TreeOk, Components, SearchFrom, Resolve, MissingAt;
      var r := SearchFile(path, junk);
      ok := r.Folder?;
      if ok {
        cwd := r.ino;
      }
    }

    /** The walk up by ".." that collects names, deepest first. */
    method WalkUp() returns (rev: string)
      requires TreeOk(t) && cwd in t
      ensures rev == RevJoined(PathOf(t, cwd))
    {
      hide TreeOk, SlotsOk, Listed, PathOf;
      rev := "";
      var child := cwd;
      ghost var taken: seq<string> := [];
      while child != ROOT
        invariant child in t && PathOf(t, cwd) == PathOf(t, child) + taken && rev == RevJoined(taken)
        decreases if child in t then t[child].depth else 0
      {
        TreeParts(t, child);
        var parent := t[child].slots[1].ino;
        NameFound(t, parent, child);
        ghost var c := NameIn(t, parent, child);
        ChildPathStep(t, parent, child);
        var i := FindIno(t[parent].slots, child, 0);
        rev := rev + "/" + t[parent].slots[i].name;
        assert PathOf(t, parent) + [c] + taken == PathOf(t, parent) + ([c] + taken);
        taken := [c] + taken;
        assert taken[1..] == taken[1..];
        child := parent;
      }
      RootPath(t);
      assert [] + taken == taken;
    }

    /** sys_getcwd: walk up, then turn the names round slash by slash. */
    method Getcwd() returns (buf: string)
      requires TreeOk(t) && cwd in t
      ensures buf == Render(PathOf(t, cwd))
    {
      hide TreeOk, RevJoined, PathOf;
      if cwd == ROOT {
        RootPath(t);
        return "/";
      }
      ghost var all := PathOf(t, cwd);
      PathOfPlain(t, cwd);
      NotRootPath(t, cwd);
      var rev := WalkUp();
      buf := "";
      ghost var n := 0;
      assert all[0..] == all && all[..0] == [];
      var slash := LastSlash(rev);
      LastSlashOfRev(all, slash);
      while slash != -1
        invariant 0 <= n <= |all| && buf == Joined(all[..n]) && rev == RevJoined(all[n..])
        invariant -1 <= slash < |rev| && (slash >= 0 ==> rev[slash] == '/')
        invariant forall i :: slash < i < |rev| ==> rev[i] != '/'
        invariant slash == -1 <==> n == |all|
        decreases |all| - n
      {
        LastSlashOfRev(all[n..], slash);
        assert all[..n + 1][..n] == all[..n] && all[n..][1..] == all[n + 1..];
        buf := buf + rev[slash..];
        rev := rev[..slash];
        n := n + 1;
        slash := LastSlash(rev);
        LastSlashOfRev(all[n..], slash);
      }
      assert all[..|all|] == all;
    }

    /** sys_mkdir with a fresh inode: a directory appears where exactly the last
        name of the path was missing. */
    method Mkdir(pathname: string, junk: nat, ino: nat) returns (ok: bool)
      requires TreeOk(t) && pathname != "" && pathname[0] == '/' && Unused(t, ino)
      requires forall i :: 0 <= i < |Components(pathname)| ==> |Components(pathname)[i]| < MAX_FILE_NAME_LEN
      modifies this`t
      ensures TreeOk(t)
      ensures ok <==> Search(old(t), pathname, junk).NotFound? && |Search(old(t), pathname, junk).rest| == 1
      ensures Components(pathname) != [] ==>
        (ok <==> exists d: nat :: LastMissing(old(t), Components(pathname), d))
      ensures ok ==> Search(t, pathname, junk) == Folder(ino)
      ensures !ok ==> t == old(t)
    {
      hide TreeOk, Listed, SlotsOk, Components, Unused, WithDir, LastMissing, Searched, Resolve;
      var r := SearchFile(pathname, junk);
      MkdirMeans(t, pathname, r);
      if !r.NotFound? || |r.rest| != 1 {
        return false;
      }
      RootPath(t);
      ComponentsAreNames(pathname);
      MissingFacts(t, ROOT, Components(pathname), junk);
      AddTree(t, r.dir, r.rest[0], ino);
      MkdirFinds(t, ROOT, Components(pathname), junk, ino);
      t := WithDir(t, r.dir, r.rest[0], ino);
      ok := true;
    }
  }

  lemma RootPath(t: Tree)
    requires TreeOk(t)
    ensures ROOT in t && PathOf(t, ROOT) == []
  {
  }

  lemma NotRootPath(t: Tree, d: nat)
    requires TreeOk(t) && d in t && d != ROOT
    ensures PathOf(t, d) != []
  {
    hide SlotsOk, Listed;
    assert DirOk(t, d);
  }

  /** Where a search fails, the name can be added. */
  lemma {:induction false} MissingFacts(t: Tree, d: nat, cs: seq<string>, last: nat)
    requires TreeOk(t) && d in t && Names(cs) && SearchFrom(t, d, cs, last).NotFound?
    requires forall i :: 0 <= i < |cs| ==> |cs[i]| < MAX_FILE_NAME_LEN
    ensures var r := SearchFrom(t, d, cs, last);
            r.dir in t && r.rest != [] && Find(t[r.dir].slots, r.rest[0]) == -1
            && |r.rest[0]| < MAX_FILE_NAME_LEN && Plain([r.rest[0]])
    decreases |cs|
  {
    hide Names, TreeOk, SlotsOk, Listed;
    var i := Find(t[d].slots, cs[0]);
    NamesTail(cs);
    if i == -1 {
      TreeParts(t, d);
      assert t[d].slots[0].name == "." && t[d].slots[1].name == "..";
      assert cs[0] != "." && cs[0] != "..";
      OnePlain(cs[0]);
    } else {
      FoundKnown(t, d, cs[0]);
      var e := t[d].slots[i];
      if e.ftype.Directory? {
        StepPath(t, d, cs[0]);
        MissingFacts(t, e.ino, cs[1..], e.ino);
      }
    }
  }

  /** Searching again after mkdir finds the new directory. */
  lemma {:induction false} MkdirFinds(t: Tree, d: nat, cs: seq<string>, last: nat, ino: nat)
    requires TreeOk(t) && d in t && Names(cs) && Unused(t, ino)
    requires SearchFrom(t, d, cs, last).NotFound? && |SearchFrom(t, d, cs, last).rest| == 1
    requires SearchFrom(t, d, cs, last).dir in t
    requires Find(t[SearchFrom(t, d, cs, last).dir].slots, SearchFrom(t, d, cs, last).rest[0]) == -1
    ensures var r := SearchFrom(t, d, cs, last);
            SearchFrom(WithDir(t, r.dir, r.rest[0], ino), d, cs, last) == Folder(ino)
    decreases |cs|
  {
    hide Names, Listed, Put, Place, TreeOk;
    NamesTail(cs);
    var r := SearchFrom(t, d, cs, last);
    var t' := WithDir(t, r.dir, r.rest[0], ino);
    var i := Find(t[d].slots, cs[0]);
    TreeParts(t, r.dir);
    var e' := Entry(r.rest[0], ino, Directory);
    PutFacts(t, r.dir, e');
    if i == -1 {
      FindNew(t[d].slots, t'[d].slots, Place(t[d].slots, 0), e');
    } else {
      FoundKnown(t, d, cs[0]);
      var e := t[d].slots[i];
      StepPath(t, d, cs[0]);
      MkdirFinds(t, e.ino, cs[1..], e.ino, ino);
      assert Find(t'[d].slots, cs[0]) == i by {
        if d == r.dir { FindOld(t[d].slots, t'[d].slots, Place(t[d].slots, 0), e', cs[0]); }
      }
      assert t'[d].slots[i] == e;
    }
  }

  lemma FindNew(slots: seq<Entry>, r: seq<Entry>, k: nat, e: Entry)
    requires PutAt(slots, r, k, e) && Find(slots, e.name) == -1
    ensures Find(r, e.name) == k
  {
  }

  lemma FindOld(slots: seq<Entry>, r: seq<Entry>, k: nat, e: Entry, c: string)
    requires PutAt(slots, r, k, e) && Find(slots, c) != -1 && c != "" && e.name != c
    ensures Find(r, c) == Find(slots, c)
  {
  }
}
