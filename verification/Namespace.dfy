/** The volume on disk and the directory tree are two views of one file system:
    creating and removing files and directories on the volume does to the tree
    what fs/fs.c means by it, so everything proved of trees holds of volumes. */
module Namespace {
  import opened Volume
  import opened Bitmaps
  import Sectors
  import DirSlots
  import Directory
  import FileSystem
  import Files
  import Paths
  import Format
  import InodeTable
  import Tree = DirTree

  const SLOTS: nat := DirSlots.SLOTS

  function Str(name: seq<Sectors.Byte>): (s: string)
    ensures |s| == |name| && forall i :: 0 <= i < |s| ==> s[i] == name[i] as char
  {
    seq(|name|, i requires 0 <= i < |name| => name[i] as char)
  }

  lemma StrInjective(a: seq<Sectors.Byte>, b: seq<Sectors.Byte>)
    ensures Str(a) == Str(b) <==> a == b
  {
    if Str(a) == Str(b) {
      forall i | 0 <= i < |a| ensures a[i] == b[i] {
        assert Str(a)[i] == Str(b)[i];
        assert a[i] == a[i] as char as int && b[i] == b[i] as char as int;
      }
    }
  }

  function TypeOf(w: Sectors.Word): Tree.FileType {
    if w == Sectors.UNKNOWN then Tree.Unknown else if w == Sectors.DIRECTORY then Tree.Directory else Tree.Regular
  }

  function Conv(e: Sectors.Entry): Tree.Entry { Tree.Entry(Str(e.name), e.ino, TypeOf(e.ftype)) }

  /** The slots of a directory in the tree are those on disk, up to free slots at the end. */
  predicate Row(ts: seq<Tree.Entry>, es: seq<Sectors.Entry>) {
    && |ts| <= SLOTS == |es|
    && (forall i :: 0 <= i < |ts| ==> ts[i] == Conv(es[i]))
    && (forall i :: |ts| <= i < |es| ==> es[i] == Sectors.DEAD)
  }

  /** Slot `i` of directory `d`, after "." and "..", names inode `n`. */
  predicate NamedAt(v: Vol, d: nat, i: nat, n: nat) {
    && d in v.nodes && d in v.dirs && 2 <= i < SLOTS
    && DirSlots.Live(FileSystem.EntriesIn(v, d)[i]) && FileSystem.EntriesIn(v, d)[i].ino as nat == n
  }

  /** Apart from "." and "..", no inode is named in two directories. */
  ghost predicate NamedOnce(v: Vol) {
    forall c: nat, d: nat, i: nat, j: nat, n: nat :: NamedAt(v, c, i, n) && NamedAt(v, d, j, n) ==> c == d
  }

  ghost predicate Rows(t: Tree.Tree, v: Vol) {
    t.Keys == v.dirs && forall d :: d in t ==> d in v.nodes && Row(t[d].slots, FileSystem.EntriesIn(v, d))
  }

  /** Tree `t` is what the directories of `v` spell out. */
  ghost predicate Models(t: Tree.Tree, v: Vol) {
    Rows(t, v) && FileSystem.Named(v) && NamedOnce(v)
  }

  // ---- slots

  lemma FirstFree(ts: seq<Tree.Entry>, es: seq<Sectors.Entry>, k: nat)
    requires Row(ts, es) && k <= |ts| && Directory.FirstDead(es) >= k
    ensures Tree.Place(ts, k) == Directory.FirstDead(es)
    decreases |ts| - k
  {
    hide Str;
    var j := Directory.FirstDead(es);
    if k < |ts| && DirSlots.Live(es[k]) {
      assert ts[k] == Conv(es[k]) && !ts[k].ftype.Unknown?;
      assert j != k;
      FirstFree(ts, es, k + 1);
    } else {
      assert !DirSlots.Live(es[k]);
      assert k < |ts| ==> ts[k] == Conv(es[k]) && ts[k].ftype.Unknown?;
    }
  }

  lemma PutRow(ts: seq<Tree.Entry>, es: seq<Sectors.Entry>, e: Sectors.Entry)
    requires Row(ts, es) && Directory.FirstDead(es) >= 0
    ensures Row(Tree.Put(ts, Conv(e)), es[Directory.FirstDead(es) := e])
  {
    hide Conv, Directory.FirstDead;
    FirstFree(ts, es, 0);
  }

  lemma ClearRow(ts: seq<Tree.Entry>, es: seq<Sectors.Entry>, j: nat)
    requires Row(ts, es) && j < |ts|
    ensures Row(ts[j := Tree.FREE], es[j := Sectors.DEAD])
  {
    assert Conv(Sectors.DEAD) == Tree.FREE;
  }

  lemma LiveInRow(ts: seq<Tree.Entry>, es: seq<Sectors.Entry>, j: nat)
    requires Row(ts, es) && j < SLOTS && DirSlots.Live(es[j])
    ensures j < |ts| && ts[j] == Conv(es[j]) && ts[j] != Tree.FREE
  {
    hide Str;
  }

  /** A name the tree does not list is not in the directory on disk. */
  lemma NotListed(ts: seq<Tree.Entry>, es: seq<Sectors.Entry>, name: seq<Sectors.Byte>)
    requires Row(ts, es) && Tree.Find(ts, Str(name)) == -1
    ensures name !in DirSlots.DirMap(es)
  {
    hide DirSlots.Find;
    DirSlots.InMap(es, name);
    var j := DirSlots.Find(es, name);
    if j >= 0 {
      LiveInRow(ts, es, j);
    }
  }

  /** Looking a name up in the tree is looking it up on disk. */
  lemma FindMatches(ts: seq<Tree.Entry>, es: seq<Sectors.Entry>, name: seq<Sectors.Byte>)
    requires Row(ts, es) && DirSlots.SlotsOk(es) && name != []
    ensures name in DirSlots.DirMap(es) <==> Tree.Find(ts, Str(name)) >= 0
    ensures name in DirSlots.DirMap(es) ==> ts[Tree.Find(ts, Str(name))] == Conv(DirSlots.DirMap(es)[name])
  {
    hide DirSlots.Find, Sectors.NameOk, DirSlots.DirMap, Str;
    DirSlots.InMap(es, name);
    var j, k := DirSlots.Find(es, name), Tree.Find(ts, Str(name));
    if k >= 0 {
      StrInjective(es[k].name, name);
      DirSlots.FindIs(es, k);
    }
    if j >= 0 {
      LiveInRow(ts, es, j);
    }
  }

  /** A number no inode has is in no slot of the tree. */
  lemma FreeNumber(t: Tree.Tree, v: Vol, owner: Owners, n: nat)
    requires Valid(v, owner) && Models(t, v) && n != 0 && n !in v.nodes
    ensures Tree.Unused(t, n)
  {
    hide NamedOnce, Str, Owned, Shaped, InodesOk, Slots;
    forall d, i: nat | d in t && i < |t[d].slots| ensures t[d].slots[i].ino != n {
      var es := FileSystem.EntriesIn(v, d);
      Directory.DirFacts(v, owner, d);
      assert t[d].slots[i] == Conv(es[i]);
      assert DirSlots.Live(es[i]) ==> es[i].ino as nat in v.nodes;
    }
  }

  // ---- what each operation does to the tree

  lemma RowsAdded(t: Tree.Tree, v: Vol, w: Vol, n: nat, parent: nat, e: Sectors.Entry, t2: Tree.Tree)
    requires Rows(t, v) && parent in t && parent in w.nodes && n !in v.nodes && n != parent
    requires FileSystem.EntryAdded(v, w, parent, e) && FileSystem.Unchanged(v, w, n, parent)
    requires w.dirs == v.dirs + (if n in w.dirs then {n} else {})
    requires t2.Keys == w.dirs && t2[parent].slots == Tree.Put(t[parent].slots, Conv(e))
    requires forall d :: d in t && d != parent ==> t2[d] == t[d]
    requires n in w.dirs ==> n in w.nodes && Row(t2[n].slots, FileSystem.EntriesIn(w, n))
    ensures Rows(t2, w)
  {
    hide Slots, Contents, Tree.Put, Conv, Directory.FirstDead, Row;
    PutRow(t[parent].slots, FileSystem.EntriesIn(v, parent), e);
    forall d | d in t2 ensures d in w.nodes && Row(t2[d].slots, FileSystem.EntriesIn(w, d)) {
      if d != parent && d != n {
        assert d in t && d in v.nodes;
        assert MeaningOf(w, d) == MeaningOf(v, d);
      }
    }
  }

  lemma OnceAdded(v: Vol, w: Vol, n: nat, parent: nat, e: Sectors.Entry)
    requires NamedOnce(v) && FileSystem.Named(v) && parent in v.nodes && parent in v.dirs && parent in w.nodes && n !in v.nodes && n != parent
    requires FileSystem.EntryAdded(v, w, parent, e) && e.ino as nat == n && FileSystem.Unchanged(v, w, n, parent)
    requires n in w.dirs ==> n in w.nodes && forall i :: 2 <= i < SLOTS ==> !DirSlots.Live(FileSystem.EntriesIn(w, n)[i])
    ensures NamedOnce(w)
  {
    hide Slots, Contents, Directory.FirstDead;
    forall d: nat, i: nat, m: nat | NamedAt(w, d, i, m) && m != n ensures NamedAt(v, d, i, m) {
      if d != parent {
        assert MeaningOf(w, d) == MeaningOf(v, d);
      }
    }
    forall d: nat, i: nat | d != parent ensures !NamedAt(w, d, i, n) {
      if d in w.nodes && d in w.dirs && d != n && i < SLOTS {
        assert MeaningOf(w, d) == MeaningOf(v, d);
        assert DirSlots.Live(FileSystem.EntriesIn(v, d)[i]) ==> FileSystem.EntriesIn(v, d)[i].ino as nat in v.nodes;
      }
    }
  }

  /** The tree without entry `j` of `parent`, which names `n`. */
  lemma RowsRemoved(t: Tree.Tree, v: Vol, w: Vol, parent: nat, n: nat, j: nat)
    requires Tree.TreeOk(t) && Rows(t, v) && parent in t && FileSystem.Sole(v, parent, n) && FileSystem.Unlinked(v, w, parent, n)
    requires j == Directory.FindIno(FileSystem.EntriesIn(v, parent), n) && 2 <= j < |t[parent].slots|
    requires t[parent].slots[j].ino == n && t[parent].slots[j] != Tree.FREE && (n in v.dirs <==> t[parent].slots[j].ftype.Directory?)
    ensures Rows(Tree.Removed(t, parent, j), w)
  {
    hide Slots, Contents, Conv, Directory.FindIno, Row, Tree.TreeOk, DirSlots.DirMap;
    var t2 := Tree.Removed(t, parent, j);
    ClearRow(t[parent].slots, FileSystem.EntriesIn(v, parent), j);
    assert forall d :: d in w.dirs <==> d in v.dirs && d != n;
    assert t2.Keys == w.dirs;
    forall d | d in t2 ensures d in w.nodes && Row(t2[d].slots, FileSystem.EntriesIn(w, d)) {
      if d != parent {
        assert MeaningOf(w, d) == MeaningOf(v, d);
      }
    }
  }

  lemma OnceRemoved(v: Vol, w: Vol, parent: nat, n: nat)
    requires NamedOnce(v) && FileSystem.Sole(v, parent, n) && FileSystem.Unlinked(v, w, parent, n)
    ensures NamedOnce(w)
  {
    hide Slots, Contents, Directory.FindIno, DirSlots.DirMap;
    forall d: nat, i: nat, m: nat | NamedAt(w, d, i, m) ensures NamedAt(v, d, i, m) {
      if d != parent {
        assert MeaningOf(w, d) == MeaningOf(v, d);
      }
    }
  }

  /** Entry `j` of `parent` is where the disk names inode `n`, with the type it has there. */
  ghost predicate Located(t: Tree.Tree, v: Vol, parent: nat, j: nat, n: nat) {
    && parent in t && j < |t[parent].slots|
    && FileSystem.Names(v, parent, n) && n != 0 && j == Directory.FindIno(FileSystem.EntriesIn(v, parent), n)
    && (n in v.dirs <==> t[parent].slots[j].ftype.Directory?) && (n in v.dirs <==> n in t)
  }

  /** An entry of the tree is an entry on disk. */
  lemma EntryHere(t: Tree.Tree, v: Vol, owner: Owners, parent: nat, j: nat)
    requires Valid(v, owner) && Models(t, v) && Tree.TreeOk(t) && parent in t
    requires 2 <= j < |t[parent].slots| && t[parent].slots[j] != Tree.FREE
    ensures Located(t, v, parent, j, t[parent].slots[j].ino)
  {
    hide Str, Owned, Shaped, InodesOk, Slots, NamedOnce, Tree.TreeOk, Tree.Listed, DirSlots.SlotsOk, Paths.Plain, FileSystem.Named;
    var n := t[parent].slots[j].ino;
    var es := FileSystem.EntriesIn(v, parent);
    Tree.TreeParts(t, parent);
    assert Tree.EntryOk(t, parent, t[parent].slots[j]);
    Directory.DirFacts(v, owner, parent);
    assert t[parent].slots[j] == Conv(es[j]);
    LiveEntry(es, j);
    Directory.FindInoIs(es, es[j].ino, j);
    EntryNamed(v, parent, j);
  }

  /** In a tree an inode that can be removed is named by its one entry only. */
  lemma OnlyName(t: Tree.Tree, v: Vol, owner: Owners, parent: nat, j: nat)
    requires Valid(v, owner) && Models(t, v) && Tree.CanRemove(t, parent, j)
    ensures Located(t, v, parent, j, t[parent].slots[j].ino) && FileSystem.Sole(v, parent, t[parent].slots[j].ino)
  {
    hide Str, Valid, Slots, NamedOnce, Tree.TreeOk, Tree.Empty, FileSystem.Named;
    var n := t[parent].slots[j].ino;
    EntryHere(t, v, owner, parent, j);
    forall m: nat, i: nat | m in v.nodes && m in v.dirs && i < SLOTS && DirSlots.Live(FileSystem.EntriesIn(v, m)[i]) && FileSystem.EntriesIn(v, m)[i].ino as nat == n
      ensures m == n || (m == parent && i >= 2)
    {
      if i >= 2 {
        assert NamedAt(v, m, i, n) && NamedAt(v, parent, j, n);
        SameDir(v, m, parent, i, j, n);
      } else {
        DotNames(t, v, m, i, parent, j);
      }
    }
  }

  /** A directory is empty in the tree iff it has only "." and ".." on disk. */
  lemma EmptyThere(t: Tree.Tree, v: Vol, owner: Owners, n: nat)
    requires Valid(v, owner) && Rows(t, v) && n in t
    ensures n in v.nodes && (Tree.Empty(t, n) <==> DirSlots.DirMap(FileSystem.EntriesIn(v, n)).Keys == {DirSlots.DOT, DirSlots.DOTDOT})
  {
    hide Owned, Shaped, InodesOk, Slots, DirSlots.SlotsOk, DirSlots.DirMap, DirSlots.LiveIn, Row;
    var es := FileSystem.EntriesIn(v, n);
    Directory.DirFacts(v, owner, n);
    DirSlots.EmptyExactly(es);
    EmptyRow(t[n].slots, es);
  }

  lemma EmptyRow(ts: seq<Tree.Entry>, es: seq<Sectors.Entry>)
    requires Row(ts, es) && DirSlots.SlotsOk(es)
    ensures (forall i :: 2 <= i < |ts| ==> ts[i] == Tree.FREE) <==> forall i :: 2 <= i < SLOTS ==> !DirSlots.Live(es[i])
  {
    hide Sectors.NameOk, Str;
    assert Conv(Sectors.DEAD) == Tree.FREE;
    if forall i :: 2 <= i < |ts| ==> ts[i] == Tree.FREE {
      forall i | 2 <= i < SLOTS ensures !DirSlots.Live(es[i]) {
        assert i < |ts| ==> ts[i] == Conv(es[i]);
      }
    }
    if forall i :: 2 <= i < SLOTS ==> !DirSlots.Live(es[i]) {
      forall i | 2 <= i < |ts| ensures ts[i] == Tree.FREE {
        assert ts[i] == Conv(es[i]) && !DirSlots.Live(es[i]);
      }
    }
  }

  /** What looks empty on disk can be removed from the tree. */
  lemma Removable(t: Tree.Tree, v: Vol, owner: Owners, parent: nat, j: nat)
    requires Valid(v, owner) && Models(t, v) && Tree.TreeOk(t) && parent in t
    requires 2 <= j < |t[parent].slots| && t[parent].slots[j] != Tree.FREE
    requires t[parent].slots[j].ino in v.nodes && FileSystem.LooksEmpty(v, t[parent].slots[j].ino)
    ensures Tree.CanRemove(t, parent, j)
  {
    hide Valid, Slots, NamedOnce, Tree.TreeOk, Tree.Empty, FileSystem.Named, DirSlots.DirMap, FileSystem.Names, Directory.FindIno;
    EntryHere(t, v, owner, parent, j);
    if t[parent].slots[j].ino in v.dirs {
      EmptyThere(t, v, owner, t[parent].slots[j].ino);
    }
  }

  lemma SameDir(v: Vol, c: nat, d: nat, i: nat, j: nat, n: nat)
    requires NamedOnce(v) && NamedAt(v, c, i, n) && NamedAt(v, d, j, n)
    ensures c == d
  {
    hide NamedAt;
  }

  lemma EntryNamed(v: Vol, d: nat, j: nat)
    requires FileSystem.Named(v) && d in v.nodes && d in v.dirs && j < SLOTS && DirSlots.Live(FileSystem.EntriesIn(v, d)[j])
    ensures FileSystem.EntriesIn(v, d)[j].ino as nat in v.nodes
  {
    hide Slots;
  }

  lemma LiveEntry(es: seq<Sectors.Entry>, j: nat)
    requires DirSlots.SlotsOk(es) && j < SLOTS && Conv(es[j]) != Tree.FREE
    ensures DirSlots.Live(es[j])
  {
    hide Sectors.NameOk;
    assert Conv(Sectors.DEAD) == Tree.FREE;
  }

  /** "." names its own directory, and ".." no file and no empty directory. */
  lemma DotNames(t: Tree.Tree, v: Vol, m: nat, i: nat, parent: nat, j: nat)
    requires Rows(t, v) && Tree.CanRemove(t, parent, j) && m in t && i < 2
    requires FileSystem.EntriesIn(v, m)[i].ino as nat == t[parent].slots[j].ino
    ensures m == t[parent].slots[j].ino
  {
    hide Str, Slots, Tree.TreeOk, Tree.SlotsOk, Tree.EntryOk, Tree.Listed;
    Tree.TreeParts(t, m);
    RemovableKind(t, parent, j);
    assert t[m].slots[i] == Conv(FileSystem.EntriesIn(v, m)[i]);
    if i == 1 {
      NotParent(t, m, t[parent].slots[j].ino);
    }
  }

  /** What can be removed is a file, or an empty directory other than the root. */
  lemma RemovableKind(t: Tree.Tree, parent: nat, j: nat)
    requires Tree.CanRemove(t, parent, j)
    ensures t[parent].slots[j].ino != Tree.ROOT
    ensures t[parent].slots[j].ino in t ==> Tree.Empty(t, t[parent].slots[j].ino)
  {
    hide Tree.TreeOk, Tree.Listed, Paths.Plain, Tree.Empty;
    Tree.TreeParts(t, parent);
    assert Tree.EntryOk(t, parent, t[parent].slots[j]);
  }

  lemma NotParent(t: Tree.Tree, m: nat, n: nat)
    requires Tree.TreeOk(t) && m in t && n != Tree.ROOT && (n in t ==> Tree.Empty(t, n)) && |t[m].slots| >= 2
    ensures Tree.ParentOf(t, m) != n
  {
    hide Tree.TreeOk, Tree.SlotsOk, Tree.Listed, Tree.Empty;
    Tree.TreeParts(t, m);
    if n in t && m != Tree.ROOT {
      Tree.NoChildren(t, n, m);
    }
  }

  lemma DotRow(n: nat, parent: nat)
    requires n < 0x1_0000_0000 && parent < 0x1_0000_0000
    ensures Row([Tree.Entry(".", n, Tree.Directory), Tree.Entry("..", parent, Tree.Directory)], FileSystem.DotSlots(n, parent))
  {
    assert Str(DirSlots.DOT) == "." && Str(DirSlots.DOTDOT) == "..";
  }

  /** The precondition of an insertion on the volume, from what the tree says. */
  lemma CanAddHere(t: Tree.Tree, v: Vol, owner: Owners, parent: nat, name: seq<Sectors.Byte>, n: nat)
    requires Valid(v, owner) && Models(t, v) && Tree.TreeOk(t) && parent in t && n != 0 && n !in v.nodes
    requires Sectors.NameOk(name) && Paths.Plain([Str(name)]) && Tree.Find(t[parent].slots, Str(name)) == -1
    ensures Tree.CanAdd(t, parent, Str(name), n)
  {
    hide Owned, Shaped, InodesOk, Slots, NamedOnce, FileSystem.Named, Tree.TreeOk, Rows;
    FreeNumber(t, v, owner, n);
  }

  lemma NewHere(t: Tree.Tree, v: Vol, owner: Owners, parent: nat, name: seq<Sectors.Byte>)
    requires Valid(v, owner) && Models(t, v) && parent in t
    requires Sectors.NameOk(name) && Paths.Plain([Str(name)]) && Tree.Find(t[parent].slots, Str(name)) == -1
    ensures FileSystem.NewName(v, parent, name)
  {
    hide Owned, Shaped, InodesOk, Slots, NamedOnce, FileSystem.Named, DirSlots.DirMap;
    NotListed(t[parent].slots, FileSystem.EntriesIn(v, parent), name);
    assert Paths.IsName([Str(name)][0]);
  }

  lemma FileModels(t: Tree.Tree, v: Vol, w: Vol, parent: nat, n: nat, name: seq<Sectors.Byte>)
    requires n !in v.nodes && n < 0x1_0000_0000 && n in w.nodes && n !in w.dirs && w.dirs == v.dirs
    requires parent in v.nodes && parent in w.nodes && Models(t, v) && Tree.CanAdd(t, parent, Str(name), n)
    requires FileSystem.Named(w) && FileSystem.Unchanged(v, w, n, parent)
    requires FileSystem.EntryAdded(v, w, parent, Sectors.Entry(name, n, Sectors.REGULAR))
    ensures Models(Tree.WithFile(t, parent, Str(name), n), w) && Tree.TreeOk(Tree.WithFile(t, parent, Str(name), n))
  {
    hide Owned, Shaped, InodesOk, Rooted, Slots, FileSystem.Named, NamedOnce, Tree.TreeOk, Tree.Put, Str, FileSystem.EntryAdded, FileSystem.Unchanged, Row;
    var e := Sectors.Entry(name, n, Sectors.REGULAR);
    Tree.AddTree(t, parent, Str(name), n);
    RowsAdded(t, v, w, n, parent, e, Tree.WithFile(t, parent, Str(name), n));
    OnceAdded(v, w, n, parent, e);
  }

  lemma DirModels(t: Tree.Tree, v: Vol, w: Vol, parent: nat, n: nat, name: seq<Sectors.Byte>)
    requires n !in v.nodes && n < 0x1_0000_0000 && n in w.nodes && n in w.dirs && w.dirs == v.dirs + {n}
    requires parent < 0x1_0000_0000 && parent in v.nodes && parent in w.nodes
    requires Models(t, v) && Tree.CanAdd(t, parent, Str(name), n)
    requires FileSystem.Named(w) && FileSystem.Unchanged(v, w, n, parent) && FileSystem.EntriesIn(w, n) == FileSystem.DotSlots(n, parent)
    requires FileSystem.EntryAdded(v, w, parent, Sectors.Entry(name, n, Sectors.DIRECTORY))
    ensures Models(Tree.WithDir(t, parent, Str(name), n), w) && Tree.TreeOk(Tree.WithDir(t, parent, Str(name), n))
  {
    hide Owned, Shaped, InodesOk, Rooted, Slots, FileSystem.Named, NamedOnce, Tree.TreeOk, Tree.Put, Str, FileSystem.EntryAdded, FileSystem.Unchanged, Row;
    var e := Sectors.Entry(name, n, Sectors.DIRECTORY);
    Tree.AddTree(t, parent, Str(name), n);
    DotRow(n, parent);
    RowsAdded(t, v, w, n, parent, e, Tree.WithDir(t, parent, Str(name), n));
    OnceAdded(v, w, n, parent, e);
  }

  lemma RemovedModels(t: Tree.Tree, v: Vol, owner: Owners, w: Vol, parent: nat, j: nat)
    requires Valid(v, owner) && Models(t, v) && Tree.CanRemove(t, parent, j)
    requires var n := t[parent].slots[j].ino;
      FileSystem.Sole(v, parent, n) && FileSystem.Unlinked(v, w, parent, n)
    requires FileSystem.Named(w)
    ensures Models(Tree.Removed(t, parent, j), w) && Tree.TreeOk(Tree.Removed(t, parent, j))
  {
    hide Owned, Shaped, InodesOk, Rooted, Slots, FileSystem.Named, NamedOnce, Tree.TreeOk, FileSystem.Sole, FileSystem.Unlinked, Rows, Tree.Removed;
    var n := t[parent].slots[j].ino;
    OnlyName(t, v, owner, parent, j);
    Tree.RemoveTree(t, parent, j);
    RowsRemoved(t, v, w, parent, n, j);
    OnceRemoved(v, w, parent, n);
  }

  lemma OneDirectory(v: Vol)
    requires v.dirs == {0}
    ensures NamedOnce(v)
  {
    hide Slots;
  }

  /** A fresh format spells out the tree that is the root alone. */
  lemma FormattedModels(base: Sectors.Word, bitLen: nat, sects: nat, disk: seq<Sectors.Sector>)
    requires 0 < base && base + bitLen <= |disk| < 0x1_0000_0000 && 8 <= bitLen <= Format.BITS * sects
    ensures Models(Tree.FORMATTED, Format.Formatted(base, bitLen, sects, disk)) && Tree.TreeOk(Tree.FORMATTED)
    ensures TableOk(Format.Formatted(base, bitLen, sects, disk)) && Persistent(Format.Formatted(base, bitLen, sects, disk))
  {
    hide TableOk, Persistent, Slots, FileSystem.DotSlots, Row, FileSystem.Named, Valid, Sound, FileSystem.DotSector, FileSystem.DirNode, Format.Fresh, NamedOnce, Tree.TreeOk;
    OneDirectory(Format.Formatted(base, bitLen, sects, disk));
    Format.FormatPersistent(base, bitLen, sects, disk);
    Format.FormatSound(base, bitLen, sects, disk);
    Tree.FormattedOk();
    DotRow(0, 0);
  }

  /** A mounted volume with the tree it spells out. */
  class Mounted {
    const p: Partition
    ghost var t: Tree.Tree

    constructor (p: Partition, ghost t: Tree.Tree)
      requires p.Ok() && Models(t, p.v) && Tree.TreeOk(t) && TableOk(p.v)
      ensures this.p == p && this.t == t && Ok()
    {
      hide Valid, Models, Tree.TreeOk, TableOk;
      this.p, this.t := p, t;
    }

    ghost predicate Ok()
      reads this, p
    {
      p.Ok() && Models(t, p.v) && Tree.TreeOk(t) && TableOk(p.v)
    }

    /** A name that may be added to `parent`, which is open. */
    ghost predicate Addable(parent: nat, name: seq<Sectors.Byte>)
      reads this, p
    {
      && parent in t && InHand(p.v, parent)
      && Sectors.NameOk(name) && Paths.Plain([Str(name)]) && Tree.Find(t[parent].slots, Str(name)) == -1
    }

    /** Slot `j` of `parent`, which is open, names inode `n`. */
    ghost predicate Entry(parent: nat, j: nat, n: nat)
      reads this, p
    {
      && parent in t && InHand(p.v, parent)
      && 2 <= j < |t[parent].slots| && t[parent].slots[j] != Tree.FREE && t[parent].slots[j].ino == n
    }

    /** file_create on the volume is file creation in the tree. Every inode still
        survives being closed iff the new number is below 256. */
    method Create(parent: nat, name: seq<Sectors.Byte>, g: int, fds: seq<int>) returns (r: int, fd: int)
      requires Ok() && Addable(parent, name) && |fds| == FileSystem.FDS
      modifies this, p
      ensures Ok() && -1 <= r == Creates(old(p.v), parent, g) && fd == if r == -1 then -1 else FileSystem.FreeFd(fds)
      ensures t == if r == -1 then old(t) else Tree.WithFile(old(t), parent, Str(name), r)
      ensures r == -1 ==> p.v == old(p.v)
      ensures r != -1 ==> Saved(old(p.v), p.v, {parent, r as nat})
      ensures r != -1 && Persistent(old(p.v)) ==> (Persistent(p.v) <==> r < 256)
    {
      hide Valid, Models, Tree.TreeOk, Slots, DirSlots.DirMap, FileSystem.Named, FileSystem.Unchanged, FileSystem.EntryAdded, Str, Row, Tree.WithFile, Saved, TableOk, Persistent, InHand;
      ghost var v0, owner0 := p.v, p.owner;
      NewHere(t, v0, owner0, parent, name);
      NamedOf(t, v0);
      FileSystem.FreeInodeIs(v0, owner0);
      var fds2;
      r, fd, fds2 := FileSystem.CreateFile(p, parent, name, g, fds);
      if r != -1 {
        CanAddHere(t, v0, owner0, parent, name, r);
        FileModels(t, v0, p.v, parent, r, name);
        SavedTable(v0, p.v, {parent, r as nat});
        t := Tree.WithFile(t, parent, Str(name), r);
      }
    }

    /** sys_mkdir on the volume is mkdir in the tree, unless it fails after taking the child's block. */
    method Mkdir(parent: nat, name: seq<Sectors.Byte>) returns (r: FileSystem.MakeResult)
      requires Ok() && Addable(parent, name)
      modifies this, p
      ensures r == Makes(old(p.v), parent) && (Ok() <==> r != FileSystem.NoEntry)
      ensures t == if r.Made? then Tree.WithDir(old(t), parent, Str(name), r.ino) else old(t)
      ensures !r.Made? && r != FileSystem.NoEntry ==> p.v == old(p.v)
      ensures r.Made? ==> Saved(old(p.v), p.v, {parent, r.ino})
      ensures r.Made? && Persistent(old(p.v)) ==> (Persistent(p.v) <==> r.ino < 256)
    {
      hide Valid, Models, Tree.TreeOk, Slots, DirSlots.DirMap, FileSystem.Named, FileSystem.Unchanged, FileSystem.EntryAdded, Str, Row, Tree.WithDir, Sound, FileSystem.DotSlots, Saved, TableOk, Persistent, InHand;
      ghost var v0, owner0 := p.v, p.owner;
      NewHere(t, v0, owner0, parent, name);
      NamedOf(t, v0);
      FileSystem.FreeInodeIs(v0, owner0);
      r := FileSystem.MakeDir(p, parent, name);
      if r.Made? {
        FileSystem.ParentBound(v0, owner0, parent);
        CanAddHere(t, v0, owner0, parent, name, r.ino);
        DirModels(t, v0, p.v, parent, r.ino, name);
        SavedTable(v0, p.v, {parent, r.ino});
        t := Tree.WithDir(t, parent, Str(name), r.ino);
      } else if r == FileSystem.NoEntry && p.Ok() {
        SoundNow(p.v, p.owner);
      }
    }

    /** Writing a file changes its bytes and no name. One that finds no block
        leaves the volume and the table in step with the tree iff none was free,
        or one was, which a new file that is not in the table was given. */
    method Write(f: Files.OpenFile, buf: seq<Sectors.Byte>) returns (r: Files.WriteResult)
      requires Ok() && f.ino in p.v.nodes && f.ino !in p.v.dirs && |buf| <= Files.USER_SPACE
      modifies p, f
      ensures f.ino in p.v.nodes && t == old(t) && r == Files.Outcome(old(p.v).nodes[f.ino], Free(old(p.v).used), |buf|)
      ensures r.Wrote? ==> Ok() && Contents(p.v.disk, p.v.nodes[f.ino]) == Contents(old(p.v).disk, old(p.v).nodes[f.ino]) + buf
      ensures r.Wrote? ==> Saved(old(p.v), p.v, {f.ino}) && (Persistent(old(p.v)) ==> Persistent(p.v))
      ensures r.TooBig? ==> Ok() && p.v == old(p.v)
      ensures r.NoBlock? ==> Files.OutOfBlocks(old(p.v), p.v, f.ino)
      ensures r.NoBlock? ==> (Ok() <==> Spared(old(p.v), f.ino))
    {
      hide Valid, Models, Tree.TreeOk, Others, Contents, Sound, Free, Saved, TableOk, Persistent, Files.First, Reopens, Tabled, ReadBack;
      ghost var v0, owner0 := p.v, p.owner;
      r := Files.FileWrite(p, f, buf);
      if r.Wrote? {
        WriteModels(t, v0, p.v, f.ino);
        SavedTable(v0, p.v, {f.ino});
        if Persistent(v0) {
          FileSystem.LowNumber(v0, f.ino);
          OthersSameBut(v0, p.v, f.ino);
          PersistentExactly(v0, p.v, {f.ino});
        }
      } else if r.NoBlock? {
        FirstBound(v0, owner0, f.ino);
        if Free(v0.used) <= Files.First(v0.nodes[f.ino]) {
          WriteModels(t, v0, p.v, f.ino);
        } else if p.Ok() {
          SoundNow(p.v, p.owner);
        }
      }
    }

    /** sys_unlink of the file in slot `j` of `parent`: refused iff it is open,
        and halted iff the file does not reopen. */
    method Unlink(parent: nat, ghost j: nat, n: nat, fileTable: seq<int>) returns (refused: bool, r: FileSystem.Removal)
      requires Ok() && Entry(parent, j, n) && t[parent].slots[j].ftype.Regular?
      modifies this, p
      ensures refused <==> n in fileTable
      ensures refused ==> Ok() && t == old(t) && p.v == old(p.v)
      ensures !refused ==> r == Removal(old(p.v), parent, n, false)
      ensures !refused && r == FileSystem.Gone ==> Ok() && t == Tree.Removed(old(t), parent, j)
      ensures !refused && r == FileSystem.Gone ==> FileSystem.Dropped(old(p.v), p.v, parent) && (Persistent(old(p.v)) ==> Persistent(p.v))
    {
      hide Valid, Models, Tree.TreeOk, Slots, DirSlots.DirMap, FileSystem.Named, Str, Tree.Removed, FileSystem.Unlinked, Directory.FindIno, Directory.Alone, TableOk, Persistent, FileSystem.Dropped, FileSystem.RemovalOf, InHand;
      ghost var v0, owner0 := p.v, p.owner;
      NamedOf(t, v0);
      OnlyName(t, v0, owner0, parent, j);
      refused, r := FileSystem.Unlink(p, parent, n, fileTable);
      if !refused && r == FileSystem.Gone {
        RemovedModels(t, v0, owner0, p.v, parent, j);
        DroppedTable(v0, p.v, parent);
        t := Tree.Removed(t, parent, j);
      }
    }

    /** sys_rmdir of the directory in slot `j` of `parent`. One that is open or
        reopens is removed iff it is empty in the tree. Any other from 256 on is
        refused; below 256 another inode may go in its place, from the tree too
        if the parent names it. */
    method Rmdir(parent: nat, ghost j: nat, n: nat, open: bool) returns (r: FileSystem.RmdirResult)
      requires Ok() && Entry(parent, j, n) && t[parent].slots[j].ftype.Directory?
      modifies this, p
      ensures r == Rmdirs(old(p.v), parent, n, open)
      ensures old(n in t) && (open || Reopens(old(p.v), n) ==> (r == FileSystem.Refused <==> old(n in t && !Tree.Empty(t, n))))
      ensures !open && n >= 256 ==> r == FileSystem.Refused
      ensures r.Refused? ==> Ok() && t == old(t) && p.v == old(p.v)
      ensures r == FileSystem.Removed(FileSystem.Gone) ==> Ok() && t == Tree.Removed(old(t), parent, j)
      ensures r == FileSystem.Removed(FileSystem.Gone) ==> FileSystem.Dropped(old(p.v), p.v, parent) && (Persistent(old(p.v)) ==> Persistent(p.v))
      ensures r.Misdirected? && r.r == FileSystem.Gone && r.ino in old(p.v).nodes ==>
        p.Ok() && FileSystem.WrongOne(old(p.v), old(p.owner), p.v, parent, r.ino)
      ensures r.Misdirected? && r.ino !in old(p.v).nodes ==> FileSystem.Stale(old(p.v), p.v, Slot(old(p.v), n).sectors[0])
      ensures r.Misdirected? && r.r == FileSystem.Gone && FileSystem.Names(old(p.v), parent, r.ino) ==>
        Ok() && FileSystem.Dropped(old(p.v), p.v, parent) && LostEntry(old(t), t, old(p.v), parent, r.ino)
    {
      hide Valid, Models, Tree.TreeOk, Slots, DirSlots.DirMap, FileSystem.Named, Str, Tree.Removed, FileSystem.Unlinked, Directory.FindIno, Directory.Alone, TableOk, Persistent, FileSystem.Dropped, FileSystem.RmdirOf, InHand, Tree.Empty;
      ghost var v0, owner0 := p.v, p.owner;
      NamedOf(t, v0);
      EntryHere(t, v0, owner0, parent, j);
      RmdirFacts(t, v0, owner0, parent, n, open);
      r := FileSystem.RemoveDir(p, parent, n, open);
      if r == FileSystem.Removed(FileSystem.Gone) {
        GoneModels(t, v0, owner0, p.v, parent, j);
        DroppedTable(v0, p.v, parent);
        t := Tree.Removed(t, parent, j);
      } else if r.Misdirected? && r.r == FileSystem.Gone && FileSystem.Names(v0, parent, r.ino) {
        ghost var k := Directory.FindIno(FileSystem.EntriesIn(v0, parent), r.ino);
        MisdirectedEntry(t, v0, owner0, parent, n, open, r.ino);
        GoneModels(t, v0, owner0, p.v, parent, k);
        DroppedTable(v0, p.v, parent);
        t := Tree.Removed(t, parent, k);
      }
    }

    method DoCreate(op: Op) returns (end: End, low: bool)
      requires Ok() && op.MakeFile?
      modifies this, p
      ensures end == Finished ==> Ok() && Did(old(p.v), old(t), op, p.v, t)
      ensures low && Persistent(old(p.v)) ==> Persisting(end, p.v)
    {
      hide Valid, Models, Tree.TreeOk, TableOk, Persistent, Slots, DirSlots.DirMap, Str, Tree.WithFile, Saved, Paths.Plain, Sectors.NameOk, InHand, Row, Tree.Find, FileSystem.EntriesIn, Reopens;
      low := true;
      if !(CanName(p.v, op.parent, op.name) && |op.fds| == FileSystem.FDS) {
        return Finished, low;
      }
      PersistentHand(p.v, op.parent);
      if !InHand(p.v, op.parent) {
        return Astray, low;
      }
      NameHere(t, p.v, p.owner, op.parent, op.name);
      var r, fd := Create(op.parent, op.name, op.g, op.fds);
      return Finished, r < 256;
    }

    method DoMkdir(op: Op) returns (end: End, low: bool)
      requires Ok() && op.MakeDir?
      modifies this, p
      ensures end == Finished ==> Ok() && Did(old(p.v), old(t), op, p.v, t)
      ensures low && Persistent(old(p.v)) ==> Persisting(end, p.v)
    {
      hide Valid, Models, Tree.TreeOk, TableOk, Persistent, Slots, DirSlots.DirMap, Str, Tree.WithDir, Saved, Paths.Plain, Sectors.NameOk, InHand, Row, Tree.Find, FileSystem.EntriesIn, Reopens;
      low := true;
      if !CanName(p.v, op.parent, op.name) {
        return Finished, low;
      }
      PersistentHand(p.v, op.parent);
      if !InHand(p.v, op.parent) {
        return Astray, low;
      }
      NameHere(t, p.v, p.owner, op.parent, op.name);
      var r := Mkdir(op.parent, op.name);
      end := if r == FileSystem.NoEntry then Leaked else Finished;
      low := !(r.Made? && r.ino >= 256);
    }

    method DoWrite(op: Op) returns (end: End)
      requires Ok() && op.Append?
      modifies this, p
      ensures end == Finished ==> Ok() && Did(old(p.v), old(t), op, p.v, t)
      ensures Persistent(old(p.v)) ==> Persisting(end, p.v)
    {
      hide Valid, Models, Tree.TreeOk, TableOk, Persistent, Contents, Free, Files.First, Files.OutOfBlocks, Files.Outcome, Saved, Reopens, Tabled;
      if !(op.ino in p.v.nodes && op.ino !in p.v.dirs && |op.buf| <= Files.USER_SPACE) {
        return Finished;
      }
      ghost var v0 := p.v;
      PersistentHand(p.v, op.ino);
      if !op.open && !Reopens(p.v, op.ino) {
        return Astray;
      }
      var spared := Spared(p.v, op.ino);
      var f := new Files.OpenFile(op.ino);
      var r := Write(f, op.buf);
      SparedSame(v0, p.v, op.ino);
      end := if r.Asserted? then Asserted else if r.NoBlock? && !spared then Leaked else Finished;
    }

    method DoUnlink(op: Op) returns (end: End)
      requires Ok() && op.Delete?
      modifies this, p
      ensures end == Finished ==> Ok() && Did(old(p.v), old(t), op, p.v, t)
      ensures Persistent(old(p.v)) ==> Persisting(end, p.v)
    {
      hide Valid, Models, Tree.TreeOk, TableOk, Persistent, Slots, DirSlots.DirMap, Str, Tree.Removed, Paths.Plain, InHand, FileSystem.Dropped, Row, Removal, Directory.FindIno, Reopens;
      if !HasName(p.v, op.parent, op.name, Sectors.REGULAR) {
        return Finished;
      }
      PersistentHand(p.v, op.parent);
      if !InHand(p.v, op.parent) {
        return Astray;
      }
      var n := NumberOf(p.v, op.parent, op.name);
      EntryFound(t, p.v, p.owner, op.parent, op.name);
      ghost var j := Tree.Find(t[op.parent].slots, Str(op.name));
      EntryHere(t, p.v, p.owner, op.parent, j);
      PersistentEnds(p.v, op.parent, n);
      var refused, r := Unlink(op.parent, j, n, op.fileTable);
      end := if refused || r == FileSystem.Gone then Finished else if r == FileSystem.Stuck then Hung else Halted;
    }

    method DoRmdir(op: Op) returns (end: End)
      requires Ok() && op.DeleteDir?
      modifies this, p
      ensures end == Finished ==> Ok() && Did(old(p.v), old(t), op, p.v, t)
      ensures Persistent(old(p.v)) ==> Persisting(end, p.v)
    {
      hide Valid, Models, Tree.TreeOk, TableOk, Persistent, Slots, DirSlots.DirMap, Str, Tree.Removed, Paths.Plain, InHand, FileSystem.Dropped, Row, Tree.Empty, Rmdirs, Directory.FindIno, FileSystem.WrongOne, LostEntry, Reopens;
      if !HasName(p.v, op.parent, op.name, Sectors.DIRECTORY) {
        return Finished;
      }
      PersistentHand(p.v, op.parent);
      if !InHand(p.v, op.parent) {
        return Astray;
      }
      var n := NumberOf(p.v, op.parent, op.name);
      EntryFound(t, p.v, p.owner, op.parent, op.name);
      ghost var j := Tree.Find(t[op.parent].slots, Str(op.name));
      EntryHere(t, p.v, p.owner, op.parent, j);
      PersistentEnds(p.v, op.parent, n);
      var r := Rmdir(op.parent, j, n, op.open);
      end := match r
        case Refused => Finished
        case Asserted => Halted
        case Misdirected(_, _) => Astray
        case Removed(d) => if d == FileSystem.Gone then Finished else Hung;
    }

    /** Any calls, in any order, with any arguments: volume, table and tree stay in
        step, each call doing to both what it says, up to the first leak, hang,
        failed assertion, halt or stray slot; and while numbers stay below 256
        every inode survives being closed, and no call halts on a slot or goes
        astray. */
    method Run(ops: seq<Op>) returns (end: End, low: bool, ghost trail: seq<State>)
      requires Ok()
      modifies this, p
      ensures end == Finished ==> Ok() && Replays(ops, trail) && trail[0] == State(old(p.v), old(t)) && trail[|ops|] == State(p.v, t)
      ensures low && Persistent(old(p.v)) ==> Persisting(end, p.v)
    {
      hide Valid, Models, Tree.TreeOk, TableOk, Persistent, Did;
      end, low, trail := Finished, true, [State(p.v, t)];
      var i := 0;
      while i < |ops| && end == Finished
        invariant 0 <= i <= |ops|
        invariant end == Finished ==> Ok() && Replays(ops[..i], trail) && trail[0] == State(old(p.v), old(t)) && trail[i] == State(p.v, t)
        invariant low && Persistent(old(p.v)) ==> Persisting(end, p.v)
      {
        var below := true;
        ghost var v0, t0 := p.v, t;
        match ops[i] {
          case MakeFile(_, _, _, _) => end, below := DoCreate(ops[i]);
          case MakeDir(_, _) => end, below := DoMkdir(ops[i]);
          case Append(_, _, _) => end := DoWrite(ops[i]);
          case Delete(_, _, _) => end := DoUnlink(ops[i]);
          case DeleteDir(_, _, _) => end := DoRmdir(ops[i]);
        }
        low := low && below;
        if end == Finished {
          ReplaysMore(ops, i, trail, State(p.v, t));
          trail := trail + [State(p.v, t)];
        }
        i := i + 1;
      }
      assert ops[..|ops|] == ops;
    }
  }

  // ---- scripts

  datatype Op =
    | MakeFile(parent: nat, name: seq<Sectors.Byte>, g: int, fds: seq<int>)
    | MakeDir(parent: nat, name: seq<Sectors.Byte>)
    | Append(ino: nat, buf: seq<Sectors.Byte>, open: bool)
    | Delete(parent: nat, name: seq<Sectors.Byte>, fileTable: seq<int>)
    | DeleteDir(parent: nat, name: seq<Sectors.Byte>, open: bool)

  /** How a script ends: through, or at a block that is lost, an endless loop, a
      write to exactly the largest size, a slot with a foreign number where the
      kernel checks, or one where it does not. */
  datatype End = Finished | Leaked | Hung | Asserted | Halted | Astray

  predicate Persisting(end: End, v: Vol) {
    end != Halted && end != Astray && (end == Finished ==> Persistent(v))
  }

  /** A name that may be added; any other is turned down. */
  predicate CanName(v: Vol, parent: nat, name: seq<Sectors.Byte>) {
    && parent in v.nodes && parent in v.dirs && Sectors.NameOk(name) && Paths.Plain([Str(name)])
    && name !in DirSlots.DirMap(FileSystem.EntriesIn(v, parent))
  }

  /** A name that is there, of the type asked for. */
  predicate HasName(v: Vol, parent: nat, name: seq<Sectors.Byte>, ftype: Sectors.Word) {
    && parent in v.nodes && parent in v.dirs && Paths.Plain([Str(name)])
    && name in DirSlots.DirMap(FileSystem.EntriesIn(v, parent))
    && DirSlots.DirMap(FileSystem.EntriesIn(v, parent))[name].ftype == ftype
  }

  /** What one call that returns does to the volume and to the tree, from the state before it. */
  ghost predicate Did(v: Vol, t: Tree.Tree, op: Op, w: Vol, t2: Tree.Tree) {
    match op
    case MakeFile(parent, name, g, fds) =>
      if CanName(v, parent, name) && |fds| == FileSystem.FDS && Creates(v, parent, g) >= 0
      then parent in t && t2 == Tree.WithFile(t, parent, Str(name), Creates(v, parent, g))
      else t2 == t && w == v
    case MakeDir(parent, name) =>
      if CanName(v, parent, name) && Makes(v, parent).Made?
      then parent in t && t2 == Tree.WithDir(t, parent, Str(name), Makes(v, parent).ino)
      else t2 == t && w == v
    case Append(n, buf, _) => t2 == t && Appended(v, n, buf, w)
    case Delete(parent, name, fileTable) =>
      if HasName(v, parent, name, Sectors.REGULAR) && NumberOf(v, parent, name) !in fileTable then Left(t, parent, Str(name), t2)
      else t2 == t && w == v
    case DeleteDir(parent, name, open) =>
      if HasName(v, parent, name, Sectors.DIRECTORY) && Rmdirs(v, parent, NumberOf(v, parent, name), open).Removed? then Left(t, parent, Str(name), t2)
      else t2 == t && w == v
  }

  function NumberOf(v: Vol, parent: nat, name: seq<Sectors.Byte>): nat
    requires parent in v.nodes && name in DirSlots.DirMap(FileSystem.EntriesIn(v, parent))
  {
    DirSlots.DirMap(FileSystem.EntriesIn(v, parent))[name].ino
  }

  /** The tree has lost the entry with the name. */
  ghost predicate Left(t: Tree.Tree, parent: nat, name: string, t2: Tree.Tree) {
    && parent in t && Tree.Find(t[parent].slots, name) >= 0
    && t2 == Tree.Removed(t, parent, Tree.Find(t[parent].slots, name))
  }

  ghost predicate Appended(v: Vol, n: nat, buf: seq<Sectors.Byte>, w: Vol) {
    if n in v.nodes && n !in v.dirs && |buf| <= Files.USER_SPACE then
      match Files.Outcome(v.nodes[n], Free(v.used), |buf|)
      case Wrote(_) => n in w.nodes && Contents(w.disk, w.nodes[n]) == Contents(v.disk, v.nodes[n]) + buf
      case NoBlock => Files.OutOfBlocks(v, w, n)
      case _ => w == v
    else w == v
  }

  datatype State = State(v: Vol, t: Tree.Tree)

  ghost predicate Replays(ops: seq<Op>, trail: seq<State>) {
    && |trail| == |ops| + 1
    && forall i :: 0 <= i < |ops| ==> Did(trail[i].v, trail[i].t, ops[i], trail[i + 1].v, trail[i + 1].t)
  }

  lemma ReplaysMore(ops: seq<Op>, i: nat, trail: seq<State>, s: State)
    requires i < |ops| && Replays(ops[..i], trail) && Did(trail[i].v, trail[i].t, ops[i], s.v, s.t)
    ensures Replays(ops[..i + 1], trail + [s])
  {
    hide Did;
    var more := trail + [s];
    forall k | 0 <= k < i + 1 ensures Did(more[k].v, more[k].t, ops[..i + 1][k], more[k + 1].v, more[k + 1].t) {
      assert k < i ==> ops[..i][k] == ops[k];
    }
  }

  lemma PersistentHand(v: Vol, n: nat)
    requires n in v.nodes
    ensures Persistent(v) ==> Reopens(v, n) && InHand(v, n)
  {
    hide Reopens;
  }

  lemma NameHere(t: Tree.Tree, v: Vol, owner: Owners, parent: nat, name: seq<Sectors.Byte>)
    requires Valid(v, owner) && Models(t, v) && CanName(v, parent, name)
    ensures parent in t && Tree.Find(t[parent].slots, Str(name)) == -1
  {
    hide Owned, Shaped, InodesOk, Slots, NamedOnce, FileSystem.Named, DirSlots.DirMap, DirSlots.SlotsOk, Row;
    Directory.DirFacts(v, owner, parent);
    assert Paths.IsName([Str(name)][0]);
    FindMatches(t[parent].slots, FileSystem.EntriesIn(v, parent), name);
  }

  /** The first slot of `parent` with the name holds `e`. */
  ghost predicate EntryIs(t: Tree.Tree, parent: nat, name: string, e: Tree.Entry) {
    parent in t && var j := Tree.Find(t[parent].slots, name); 2 <= j && t[parent].slots[j] == e
  }

  lemma EntryFound(t: Tree.Tree, v: Vol, owner: Owners, parent: nat, name: seq<Sectors.Byte>)
    requires Valid(v, owner) && Models(t, v) && Tree.TreeOk(t) && parent in v.nodes && parent in v.dirs && Paths.Plain([Str(name)])
    requires name in DirSlots.DirMap(FileSystem.EntriesIn(v, parent))
    ensures EntryIs(t, parent, Str(name), Conv(DirSlots.DirMap(FileSystem.EntriesIn(v, parent))[name]))
  {
    hide Owned, Shaped, InodesOk, Slots, NamedOnce, FileSystem.Named, DirSlots.DirMap, DirSlots.SlotsOk, Row, Tree.TreeOk, Tree.SlotsOk, Tree.Listed;
    Directory.DirFacts(v, owner, parent);
    assert Paths.IsName([Str(name)][0]);
    FindMatches(t[parent].slots, FileSystem.EntriesIn(v, parent), name);
    Tree.TreeParts(t, parent);
  }

  /** With every inode in its slot nothing halts on a slot or goes astray. */
  lemma PersistentEnds(v: Vol, parent: nat, n: nat)
    requires parent in v.nodes && n in v.nodes
    ensures Persistent(v) ==> Removal(v, parent, n, false) != FileSystem.Halted
    ensures Persistent(v) ==> forall open :: Rmdirs(v, parent, n, open).Refused? || Rmdirs(v, parent, n, open).Removed?
  {
    hide SlotOf, Slots, DirSlots.DirMap;
    if Persistent(v) { assert Reopens(v, n); }
  }

  lemma SparedSame(v: Vol, w: Vol, n: nat)
    requires n in v.nodes && TableOk(v)
    ensures Persistent(v) && Spared(v, n) && Files.OutOfBlocks(v, w, n) ==> Persistent(w)
  {
    hide Free, Sound, TableOk, SlotOf, ReadBack;
    if Persistent(v) {
      assert Reopens(v, n);
      NumberDecides(v, n);
    }
  }

  /** The same from a fresh format: whatever is called, what is left when the
      script has run through is a consistent volume that spells out a tree. */
  method RunFresh(base: Sectors.Word, bitLen: nat, sects: nat, disk: seq<Sectors.Sector>, ops: seq<Op>) returns (v: Vol, end: End, low: bool)
    requires 0 < base && base + bitLen <= |disk| < 0x1_0000_0000 && 8 <= bitLen <= Format.BITS * sects
    ensures end == Finished ==> Sound(v) && TableOk(v) && exists t :: Models(t, v) && Tree.TreeOk(t)
    ensures low ==> Persisting(end, v)
  {
    hide Valid, Models, Tree.TreeOk, TableOk, Persistent, Sound, Format.Formatted, FileSystem.DotSlots;
    var made := Format.Formatted(base, bitLen, sects, disk);
    FormattedModels(base, bitLen, sects, disk);
    Format.FormatSound(base, bitLen, sects, disk);
    var p := new Partition(made, map[base as nat := Role(0, 0)]);
    var m := new Mounted(p, Tree.FORMATTED);
    ghost var trail;
    end, low, trail := m.Run(ops);
    v := p.v;
    if end == Finished { SoundNow(v, p.owner); }
  }

  /** The table agrees with memory still, and memory with the bitmap, after a write that finds no block. */
  predicate Spared(v: Vol, n: nat)
    requires n in v.nodes
  {
    Free(v.used) == 0 || (Free(v.used) <= Files.First(v.nodes[n]) && !Tabled(v, n))
  }

  lemma FirstBound(v: Vol, owner: Owners, n: nat)
    requires Valid(v, owner) && n in v.nodes && n !in v.dirs
    ensures Files.First(v.nodes[n]) == 1 ==> Files.Has(v.nodes[n]) <= DIRECT
    ensures Files.First(v.nodes[n]) <= 1
  {
    hide Valid;
    Files.NewFileHas(v, owner, n);
  }

  /** What looks empty and is gone from the volume is gone from the tree. */
  lemma GoneModels(t: Tree.Tree, v: Vol, owner: Owners, w: Vol, parent: nat, j: nat)
    requires Valid(v, owner) && Models(t, v) && Tree.TreeOk(t) && parent in t
    requires 2 <= j < |t[parent].slots| && t[parent].slots[j] != Tree.FREE
    requires var n := t[parent].slots[j].ino;
      && FileSystem.Names(v, parent, n) && FileSystem.LooksEmpty(v, n) && FileSystem.Unlinked(v, w, parent, n)
      && (FileSystem.Sole(v, parent, n) ==> FileSystem.Named(w))
    ensures Models(Tree.Removed(t, parent, j), w) && Tree.TreeOk(Tree.Removed(t, parent, j))
  {
    hide Valid, Models, Tree.TreeOk, Slots, FileSystem.Named, FileSystem.Unlinked, Tree.Removed, FileSystem.LooksEmpty, Directory.FindIno;
    Removable(t, v, owner, parent, j);
    NamedOf(t, v);
    OnlyName(t, v, owner, parent, j);
    RemovedModels(t, v, owner, w, parent, j);
  }

  /** The number file_create comes to, -1 if it fails. */
  function Creates(v: Vol, parent: nat, g: int): int {
    if parent !in v.nodes || FileSystem.FreeInode(v) < 0 || g == -1 || FileSystem.NoRoom(v, parent) then -1 else FileSystem.FreeInode(v)
  }

  /** `FileSystem.MakeOutcome`, for any parent. */
  function Makes(v: Vol, parent: nat): FileSystem.MakeResult {
    if parent in v.nodes then FileSystem.MakeOutcome(v, parent) else FileSystem.NoInode
  }

  /** `FileSystem.RemovalOf`, for any parent and number. */
  function Removal(v: Vol, parent: nat, n: nat, open: bool): FileSystem.Removal {
    if parent in v.nodes && n < 0x1_0000_0000 then FileSystem.RemovalOf(v, parent, n, open) else FileSystem.Halted
  }

  function Slot(v: Vol, n: nat): InodeTable.INode {
    if |v.itable| == InodeTable.TABLE_SECTS && n < MAX_FILES then SlotOf(v, n) else BLANK
  }

  /** `FileSystem.RmdirOf`, likewise. */
  function Rmdirs(v: Vol, parent: nat, n: nat, open: bool): FileSystem.RmdirResult {
    if parent in v.nodes && n in v.nodes && n < MAX_FILES && |v.itable| == InodeTable.TABLE_SECTS then FileSystem.RmdirOf(v, parent, n, open) else FileSystem.Asserted
  }

  lemma RmdirFacts(t: Tree.Tree, v: Vol, owner: Owners, parent: nat, n: nat, open: bool)
    requires Valid(v, owner) && Models(t, v) && TableOk(v) && n in t && n != 0 && n in v.nodes && parent in v.nodes
    ensures n < MAX_FILES && |v.itable| == InodeTable.TABLE_SECTS
    ensures open || Reopens(v, n) ==> (FileSystem.RmdirOf(v, parent, n, open) == FileSystem.Refused <==> !Tree.Empty(t, n))
    ensures FileSystem.RmdirOf(v, parent, n, open).Removed? ==> FileSystem.LooksEmpty(v, n)
    ensures !open && n >= 256 ==> FileSystem.RmdirOf(v, parent, n, open) == FileSystem.Refused
  {
    hide Valid, TableOk, Slots, DirSlots.DirMap, FileSystem.RemovalOf, Tree.Empty, FileSystem.Named, NamedOnce, SlotOf, Reopens;
    InTable(v, owner, n);
    EmptyThere(t, v, owner, n);
    NumberDecides(v, n);
    if !InHand(v, n) { FileSystem.RmdirLost(v, owner, parent, n); }
  }

  /** The entry of `k` in `parent` has left the tree. */
  ghost predicate LostEntry(t: Tree.Tree, t2: Tree.Tree, v: Vol, parent: nat, k: nat)
    requires FileSystem.Names(v, parent, k)
  {
    var j := Directory.FindIno(FileSystem.EntriesIn(v, parent), k);
    parent in t && j < |t[parent].slots| && t2 == Tree.Removed(t, parent, j)
  }

  /** Slot `j` of `parent` names `k`, and `k` looks empty. */
  ghost predicate Hollow(t: Tree.Tree, v: Vol, parent: nat, j: nat, k: nat) {
    && parent in t && 2 <= j < |t[parent].slots| && t[parent].slots[j] != Tree.FREE && t[parent].slots[j].ino == k
    && k in v.nodes && FileSystem.LooksEmpty(v, k)
  }

  /** The inode removed by mistake, if the parent names it, is an entry of the tree. */
  lemma MisdirectedEntry(t: Tree.Tree, v: Vol, owner: Owners, parent: nat, n: nat, open: bool, k: nat)
    requires Valid(v, owner) && Models(t, v) && TableOk(v) && n in v.nodes && n != 0 && parent in t
    requires FileSystem.Names(v, parent, k) && n < MAX_FILES && |v.itable| == InodeTable.TABLE_SECTS
    requires FileSystem.RmdirOf(v, parent, n, open).Misdirected? && FileSystem.RmdirOf(v, parent, n, open).ino == k
    ensures Hollow(t, v, parent, Directory.FindIno(FileSystem.EntriesIn(v, parent), k), k)
  {
    hide Valid, TableOk, Slots, DirSlots.DirMap, FileSystem.RemovalOf, FileSystem.Named, NamedOnce, SlotOf, FileSystem.LooksEmpty;
    FileSystem.RmdirLost(v, owner, parent, n);
    var j := Directory.FindIno(FileSystem.EntriesIn(v, parent), k);
    LiveInRow(t[parent].slots, FileSystem.EntriesIn(v, parent), j);
  }

  lemma SavedTable(v: Vol, w: Vol, ks: set<nat>)
    requires TableOk(v) && Saved(v, w, ks)
    ensures TableOk(w)
  {
    hide TableOk, Reopens;
  }

  lemma DroppedTable(v: Vol, w: Vol, parent: nat)
    requires TableOk(v) && FileSystem.Dropped(v, w, parent)
    ensures TableOk(w) && (Persistent(v) ==> Persistent(w))
  {
    hide TableOk, Reopens, Persistent;
  }

  lemma WriteModels(t: Tree.Tree, v: Vol, w: Vol, n: nat)
    requires Models(t, v) && Others(v, w, n) && n in v.nodes && n in w.nodes && n !in v.dirs && n !in w.dirs
    ensures Models(t, w)
  {
    hide Slots, Contents, Row;
    forall d | d in v.dirs && d in v.nodes ensures d in w.nodes && d in w.dirs && FileSystem.EntriesIn(w, d) == FileSystem.EntriesIn(v, d) {
      FileSystem.SameNode(v, w, n, d);
    }
    assert forall d :: d in w.dirs <==> d in v.dirs;
    assert forall d: nat, i: nat, m: nat :: NamedAt(w, d, i, m) ==> NamedAt(v, d, i, m);
  }

  lemma NamedOf(t: Tree.Tree, v: Vol)
    requires Models(t, v)
    ensures FileSystem.Named(v)
  {
    hide FileSystem.Named, Rows;
  }
}
