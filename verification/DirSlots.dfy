/** A directory as the row of its entry slots, and the finite map it stands for. */
module DirSlots {
  import opened Sectors

  const SLOTS: nat := 2940        // 140 blocks of 21 entries

  type Name = seq<Byte>
  const DOT: Name := [46]
  const DOTDOT: Name := [46, 46]

  predicate Live(e: Entry) { e.ftype != UNKNOWN }

  /** "." and ".." come first; a dead slot is all zero; live names are
      non-empty, fit their field and differ; apart from "." and ".." no two
      entries share an inode. */
  predicate SlotsOk(es: seq<Entry>) {
    && |es| == SLOTS
    && Live(es[0]) && es[0].name == DOT && Live(es[1]) && es[1].name == DOTDOT
    && (forall j :: 0 <= j < |es| && !Live(es[j]) ==> es[j] == DEAD)
    && (forall j :: 0 <= j < |es| && Live(es[j]) ==> NameOk(es[j].name) && es[j].name != [])
    && NamesDiffer(es) && InodesDiffer(es)
  }

  predicate NamesDiffer(es: seq<Entry>) {
    forall i, j :: 0 <= i < j < |es| && Live(es[i]) && Live(es[j]) ==> es[i].name != es[j].name
  }

  predicate InodesDiffer(es: seq<Entry>) {
    forall i, j :: 2 <= i < j < |es| && Live(es[i]) && Live(es[j]) ==> es[i].ino != es[j].ino
  }

  /** How many of the first `n` slots are live. */
  function LiveIn(es: seq<Entry>, n: nat): (c: nat)
    requires n <= |es|
    ensures c <= n
  {
    if n == 0 then 0 else LiveIn(es, n - 1) + if Live(es[n - 1]) then 1 else 0
  }

  /** The first live slot of that name; -1 when there is none. */
  function Find(es: seq<Entry>, name: Name, from: nat := 0): (j: int)
    requires from <= |es|
    ensures j == -1 || (from <= j < |es| && Live(es[j]) && es[j].name == name)
    ensures forall i :: from <= i < |es| && Live(es[i]) && es[i].name == name ==> from <= j <= i
    decreases |es| - from
  {
    if from == |es| then -1
    else if Live(es[from]) && es[from].name == name then from
    else Find(es, name, from + 1)
  }

  function NamesIn(es: seq<Entry>): set<Name> { set j | 0 <= j < |es| && Live(es[j]) :: es[j].name }

  /** The directory as a finite map from names to entries. */
  function DirMap(es: seq<Entry>): (m: map<Name, Entry>) {
    map name | name in NamesIn(es) && Find(es, name) >= 0 :: es[Find(es, name)]
  }

  lemma InMap(es: seq<Entry>, name: Name)
    ensures name in DirMap(es) <==> Find(es, name) >= 0
    ensures name in DirMap(es) ==> DirMap(es)[name] == es[Find(es, name)]
  {
    var j := Find(es, name);
    if j >= 0 {
      assert es[j].name in NamesIn(es);
    }
  }

  lemma FindIs(es: seq<Entry>, j: nat)
    requires NamesDiffer(es) && j < |es| && Live(es[j])
    ensures Find(es, es[j].name) == j
    ensures es[j].name in DirMap(es) && DirMap(es)[es[j].name] == es[j]
  {
    InMap(es, es[j].name);
  }

  lemma {:induction false} LiveInSame(es: seq<Entry>, fs: seq<Entry>, n: nat)
    requires n <= |es| && n <= |fs| && es[..n] == fs[..n]
    ensures LiveIn(es, n) == LiveIn(fs, n)
  {
    if n > 0 {
      assert es[..n][n - 1] == fs[..n][n - 1];
      assert es[..n - 1] == es[..n][..n - 1] && fs[..n - 1] == fs[..n][..n - 1];
      LiveInSame(es, fs, n - 1);
    }
  }

  lemma {:induction false} LiveInPut(es: seq<Entry>, j: nat, e: Entry, n: nat)
    requires j < n <= |es|
    ensures LiveIn(es[j := e], n) == LiveIn(es, n) - (if Live(es[j]) then 1 else 0) + if Live(e) then 1 else 0
  {
    if j == n - 1 {
      assert es[j := e][..j] == es[..j];
      LiveInSame(es[j := e], es, j);
    } else {
      LiveInPut(es, j, e, n - 1);
    }
  }

  lemma {:induction false} LiveInMono(es: seq<Entry>, m: nat, n: nat)
    requires m <= n <= |es|
    ensures LiveIn(es, m) <= LiveIn(es, n)
    ensures (exists j :: m <= j < n && Live(es[j])) ==> LiveIn(es, m) < LiveIn(es, n)
  {
    if m < n {
      LiveInMono(es, m, n - 1);
    }
  }

  /** Filling a dead slot with an entry under a new name and a new inode. */
  lemma InsertOk(es: seq<Entry>, j: nat, e: Entry)
    requires SlotsOk(es) && j < SLOTS && !Live(es[j])
    requires Live(e) && NameOk(e.name) && e.name != [] && e.name !in DirMap(es)
    requires forall i :: 2 <= i < |es| && Live(es[i]) ==> es[i].ino != e.ino
    ensures SlotsOk(es[j := e]) && DirMap(es[j := e]) == DirMap(es)[e.name := e]
    ensures LiveIn(es[j := e], SLOTS) == LiveIn(es, SLOTS) + 1
  {
    hide NameOk, DirMap, Find, LiveIn;
    InMap(es, e.name);
    LiveInPut(es, j, e, SLOTS);
    PutMap(es, j, e);
  }

  lemma PutMap(es: seq<Entry>, j: nat, e: Entry)
    requires j < |es| && !Live(es[j]) && Live(e) && Find(es, e.name) < 0
    ensures DirMap(es[j := e]) == DirMap(es)[e.name := e]
  {
    hide NameOk, Find;
    var fs := es[j := e];
    var m, w := DirMap(fs), DirMap(es)[e.name := e];
    assert fs[j] == e;
    forall name: Name ensures name in m <==> name in w
      ensures name in m ==> m[name] == w[name]
    {
      InMap(es, name);
      InMap(fs, name);
      PutFind(es, j, e, name);
    }
  }

  lemma PutFind(es: seq<Entry>, j: nat, e: Entry, name: Name)
    requires j < |es| && !Live(es[j]) && Live(e) && Find(es, e.name) < 0
    ensures Find(es[j := e], name) == if name == e.name then j else Find(es, name)
  {
    hide NameOk;
    var fs := es[j := e];
    var a, b := Find(es, name), Find(fs, name);
    assert fs[j] == e;
    if b >= 0 && b != j { assert es[b] == fs[b]; }
    if a >= 0 { assert a != j && fs[a] == es[a]; }
  }

  /** Emptying a live slot that is neither "." nor "..". */
  lemma DeleteOk(es: seq<Entry>, j: nat)
    requires SlotsOk(es) && 2 <= j < SLOTS && Live(es[j])
    ensures SlotsOk(es[j := DEAD]) && DirMap(es[j := DEAD]) == DirMap(es) - {es[j].name}
    ensures LiveIn(es[j := DEAD], SLOTS) == LiveIn(es, SLOTS) - 1
  {
    hide NameOk, DirMap, Find, LiveIn;
    LiveInPut(es, j, DEAD, SLOTS);
    var fs := es[j := DEAD];
    FindIs(es, j);
    assert fs[j] == DEAD;
    var m, w := DirMap(fs), DirMap(es) - {es[j].name};
    forall name: Name ensures name in m <==> name in w
      ensures name in m ==> m[name] == w[name]
    {
      InMap(es, name);
      InMap(fs, name);
      ClearFind(es, j, name);
    }
  }

  lemma ClearFind(es: seq<Entry>, j: nat, name: Name)
    requires NamesDiffer(es) && j < |es| && Live(es[j])
    ensures Find(es[j := DEAD], name) == if name == es[j].name then -1 else Find(es, name)
  {
    hide NameOk;
    var fs := es[j := DEAD];
    var a, b := Find(es, name), Find(fs, name);
    assert fs[j] == DEAD;
    if b >= 0 { assert b != j && es[b] == fs[b]; }
    if a >= 0 && a != j { assert fs[a] == es[a]; }
  }

  /** Counting entries is an exact emptiness test: two live slots are "." and "..". */
  lemma EmptyExactly(es: seq<Entry>)
    requires SlotsOk(es)
    ensures LiveIn(es, SLOTS) == 2 <==> DirMap(es).Keys == {DOT, DOTDOT}
    ensures LiveIn(es, SLOTS) == 2 <==> forall j :: 2 <= j < SLOTS ==> !Live(es[j])
    ensures LiveIn(es, SLOTS) >= 2
  {
    hide NameOk, DirMap, Find, LiveIn;
    FirstTwo(es);
    LiveInMono(es, 2, SLOTS);
    FindIs(es, 0);
    FindIs(es, 1);
    if forall j :: 2 <= j < SLOTS ==> !Live(es[j]) {
      NoneLive(es, 2, SLOTS);
      forall name | name in DirMap(es) ensures name == DOT || name == DOTDOT {
        InMap(es, name);
      }
    } else {
      var j :| 2 <= j < SLOTS && Live(es[j]);
      FindIs(es, j);
    }
  }

  lemma FirstTwo(es: seq<Entry>)
    requires 2 <= |es| && Live(es[0]) && Live(es[1])
    ensures LiveIn(es, 2) == 2
  {
    assert LiveIn(es, 0) == 0 && LiveIn(es, 1) == 1;
  }

  lemma {:induction false} NoneLive(es: seq<Entry>, m: nat, n: nat)
    requires m <= n <= |es| && forall j :: m <= j < n ==> !Live(es[j])
    ensures LiveIn(es, n) == LiveIn(es, m)
  {
    if m < n {
      NoneLive(es, m, n - 1);
    }
  }

  // ---- the live entries in order

  function LiveSeq(es: seq<Entry>, n: nat): seq<Entry>
    requires n <= |es|
  {
    if n == 0 then [] else LiveSeq(es, n - 1) + if Live(es[n - 1]) then [es[n - 1]] else []
  }

  lemma {:induction false} LiveSeqLength(es: seq<Entry>, n: nat)
    requires n <= |es|
    ensures |LiveSeq(es, n)| == LiveIn(es, n)
  {
    if n > 0 {
      LiveSeqLength(es, n - 1);
    }
  }

  /** A live entry stands as far along as there are live entries before it. */
  lemma {:induction false} LiveSeqAt(es: seq<Entry>, j: nat, n: nat)
    requires j < n <= |es| && Live(es[j])
    ensures LiveIn(es, j) < |LiveSeq(es, n)| && LiveSeq(es, n)[LiveIn(es, j)] == es[j]
  {
    LiveSeqLength(es, n - 1);
    if j < n - 1 {
      LiveSeqAt(es, j, n - 1);
    }
  }

  /** Listing loses and repeats nothing: the list holds the entries of the map, each once. */
  lemma LiveSeqMap(es: seq<Entry>)
    requires NamesDiffer(es)
    ensures |LiveSeq(es, |es|)| == |DirMap(es)|
    ensures forall e :: e in LiveSeq(es, |es|) <==> e.name in DirMap(es) && DirMap(es)[e.name] == e
  {
    hide DirMap, LiveSeq, Find, NameOk;
    forall e ensures e in LiveSeq(es, |es|) <==> e.name in DirMap(es) && DirMap(es)[e.name] == e {
      LiveSeqHas(es, |es|, e);
      InMap(es, e.name);
      if exists j :: 0 <= j < |es| && Live(es[j]) && es[j] == e {
        var j :| 0 <= j < |es| && Live(es[j]) && es[j] == e;
        FindIs(es, j);
      }
    }
    LiveSeqNames(es, |es|);
    MapSize(es);
  }

  lemma {:induction false} LiveSeqHas(es: seq<Entry>, n: nat, e: Entry)
    requires n <= |es|
    ensures e in LiveSeq(es, n) <==> exists j :: 0 <= j < n && Live(es[j]) && es[j] == e
  {
    if n > 0 {
      LiveSeqHas(es, n - 1, e);
    }
  }

  function NamesUpTo(es: seq<Entry>, n: nat): set<Name>
    requires n <= |es|
  {
    if n == 0 then {} else NamesUpTo(es, n - 1) + if Live(es[n - 1]) then {es[n - 1].name} else {}
  }

  lemma {:induction false} NameUpTo(es: seq<Entry>, n: nat, name: Name)
    requires n <= |es|
    ensures name in NamesUpTo(es, n) <==> exists j :: 0 <= j < n && Live(es[j]) && es[j].name == name
  {
    hide Live;
    if n > 0 {
      NameUpTo(es, n - 1, name);
    }
  }

  lemma {:induction false} LiveSeqNames(es: seq<Entry>, n: nat)
    requires n <= |es| && NamesDiffer(es)
    ensures |NamesUpTo(es, n)| == |LiveSeq(es, n)|
  {
    if n > 0 {
      LiveSeqNames(es, n - 1);
      if Live(es[n - 1]) {
        NameUpTo(es, n - 1, es[n - 1].name);
      }
    }
  }

  lemma MapSize(es: seq<Entry>)
    requires NamesDiffer(es)
    ensures |DirMap(es)| == |NamesUpTo(es, |es|)|
  {
    hide DirMap, NamesUpTo, Find;
    forall name: Name ensures name in DirMap(es) <==> name in NamesUpTo(es, |es|) {
      InMap(es, name);
      NameUpTo(es, |es|, name);
    }
    assert DirMap(es).Keys == NamesUpTo(es, |es|);
    assert |DirMap(es)| == |DirMap(es).Keys|;
  }
}
