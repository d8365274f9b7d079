/** What a 512-byte sector holds: raw bytes, 128 little-endian words (an
    indirect block table), or 21 directory entries of 24 bytes. */
module Sectors {
  type Byte = x: int | 0 <= x < 256
  type Word = x: int | 0 <= x < 0x1_0000_0000

  const SECTOR: nat := 512
  type Sector = s: seq<Byte> | |s| == SECTOR witness seq(SECTOR, i => 0)

  function Zeros(n: nat): (s: seq<Byte>)
    ensures |s| == n && forall i :: 0 <= i < n ==> s[i] == 0
  {
    seq(n, i => 0)
  }

  /** `s` with the bytes of `t` copied over it from offset `at`: memcpy into a buffer. */
  function Patch(s: seq<Byte>, at: nat, t: seq<Byte>): (r: seq<Byte>)
    requires at + |t| <= |s|
    ensures |r| == |s|
    ensures forall i :: 0 <= i < |s| ==> r[i] == if at <= i < at + |t| then t[i - at] else s[i]
  {
    s[..at] + t + s[at + |t|..]
  }

  // ---- words

  function WordAt(s: seq<Byte>, at: nat): Word
    requires at + 4 <= |s|
  {
    s[at] as int + 0x100 * s[at + 1] as int + 0x1_0000 * s[at + 2] as int + 0x100_0000 * s[at + 3] as int
  }

  function ByteOf(w: Word, i: nat): Byte
    requires i < 4
  {
    match i
    case 0 => w % 0x100
    case 1 => w / 0x100 % 0x100
    case 2 => w / 0x1_0000 % 0x100
    case _ => w / 0x100_0000
  }

  function BytesOf(ws: seq<Word>): (s: seq<Byte>)
    ensures |s| == 4 * |ws|
    ensures forall i :: 0 <= i < |s| ==> s[i] == ByteOf(ws[i / 4], i % 4)
  {
    seq(4 * |ws|, i requires 0 <= i < 4 * |ws| => ByteOf(ws[i / 4], i % 4))
  }

  lemma ByteSplit(w: Word)
    ensures w == ByteOf(w, 0) as int + 0x100 * ByteOf(w, 1) as int + 0x1_0000 * ByteOf(w, 2) as int + 0x100_0000 * ByteOf(w, 3) as int
  {
    assert w / 0x1_0000 == w / 0x100 / 0x100;
    assert w / 0x100_0000 == w / 0x1_0000 / 0x100;
  }

  /** Reading a word back from the bytes it was stored as. */
  lemma WordOfBytes(ws: seq<Word>, k: nat)
    requires k < |ws|
    ensures WordAt(BytesOf(ws), 4 * k) == ws[k]
  {
    hide ByteOf;
    var s := BytesOf(ws);
    assert s[4 * k] == ByteOf(ws[k], 0) by { assert 4 * k / 4 == k && 4 * k % 4 == 0; }
    assert s[4 * k + 1] == ByteOf(ws[k], 1) by { assert (4 * k + 1) / 4 == k; }
    assert s[4 * k + 2] == ByteOf(ws[k], 2) by { assert (4 * k + 2) / 4 == k; }
    assert s[4 * k + 3] == ByteOf(ws[k], 3) by { assert (4 * k + 3) / 4 == k; }
    ByteSplit(ws[k]);
  }

  /** The sector that holds a table of 128 block addresses. */
  function TableSector(ws: seq<Word>): (s: Sector)
    requires |ws| == 128
  {
    BytesOf(ws)
  }

  function TableOf(s: Sector): (ws: seq<Word>)
    ensures |ws| == 128
    ensures forall k :: 0 <= k < 128 ==> ws[k] == WordAt(s, 4 * k)
  {
    seq(128, k requires 0 <= k < 128 => WordAt(s, 4 * k))
  }

  lemma TableRoundTrip(ws: seq<Word>)
    requires |ws| == 128
    ensures TableOf(TableSector(ws)) == ws
  {
    hide WordAt;
    hide BytesOf;
    forall k | 0 <= k < 128 ensures TableOf(TableSector(ws))[k] == ws[k] {
      WordOfBytes(ws, k);
    }
  }

  // ---- directory entries

  const NAME_LEN: nat := 16
  const ENTRY: nat := 24
  const PER_SECTOR: nat := 21

  const UNKNOWN: Word := 0
  const REGULAR: Word := 1
  const DIRECTORY: Word := 2

  /** A file name that fits its field with a terminating zero. */
  predicate NameOk(name: seq<Byte>) {
    |name| < NAME_LEN && forall i :: 0 <= i < |name| ==> name[i] != 0
  }

  datatype Entry = Entry(name: seq<Byte>, ino: Word, ftype: Word)

  const DEAD: Entry := Entry([], 0, UNKNOWN)

  /** The bytes up to the first zero, as strcmp sees them. */
  function CString(s: seq<Byte>): (r: seq<Byte>)
    ensures |r| <= |s|
  {
    if s == [] || s[0] == 0 then [] else [s[0]] + CString(s[1..])
  }

  lemma {:induction false} CStringPadded(name: seq<Byte>, rest: seq<Byte>)
    requires forall i :: 0 <= i < |name| ==> name[i] != 0
    ensures CString(name + rest) == name + CString(rest)
  {
    if name == [] {
      assert name + rest == rest;
    } else {
      assert (name + rest)[1..] == name[1..] + rest;
      CStringPadded(name[1..], rest);
    }
  }

  function EntryBytes(e: Entry): (s: seq<Byte>)
    requires NameOk(e.name)
    ensures |s| == ENTRY
  {
    e.name + Zeros(NAME_LEN - |e.name|) + BytesOf([e.ino, e.ftype])
  }

  /** Comparing names runs on to the first zero, past the end of a name field without one. */
  function EntryAt(s: seq<Byte>, at: nat): Entry
    requires at + ENTRY <= |s|
  {
    Entry(CString(s[at..at + ENTRY]), WordAt(s, at + 16), WordAt(s, at + 20))
  }

  lemma WordMoved(s: seq<Byte>, at: nat, t: seq<Byte>, from: nat)
    requires at + 4 <= |s| && from + 4 <= |t|
    requires s[at..at + 4] == t[from..from + 4]
    ensures WordAt(s, at) == WordAt(t, from)
  {
    var u := s[at..at + 4];
    assert u[0] == s[at] && u[1] == s[at + 1] && u[2] == s[at + 2] && u[3] == s[at + 3];
    assert u[0] == t[from] && u[1] == t[from + 1] && u[2] == t[from + 2] && u[3] == t[from + 3];
  }

  lemma Terminated(s: seq<Byte>)
    requires s != [] && s[0] == 0
    ensures CString(s) == []
  {
  }

  /** create_dir_entry lets names of 16 characters through. They fill their field,
      so the inode number is read as part of the name: such an entry reads back
      under its name exactly when the low byte of the number is 0. */
  lemma LongNameReads(s: seq<Byte>, at: nat, name: seq<Byte>, ino: Word, ftype: Word)
    requires at + ENTRY <= |s| && |name| == NAME_LEN && forall i :: 0 <= i < |name| ==> name[i] != 0
    ensures var r := EntryAt(Patch(s, at, name + BytesOf([ino, ftype])), at);
      && r.name == name + CString(BytesOf([ino, ftype]))
      && (r.name == name <==> ino % 256 == 0)
  {
    hide CString, WordAt;
    var words := BytesOf([ino, ftype]);
    assert Patch(s, at, name + words)[at..at + ENTRY] == name + words;
    CStringPadded(name, words);
    assert words[0] == ino % 256;
    assert CString(words) == [] <==> words[0] == 0 by { FirstByte(words); }
    assert (name + CString(words))[..NAME_LEN] == name;
  }

  lemma FirstByte(s: seq<Byte>)
    requires s != []
    ensures CString(s) == [] <==> s[0] == 0
  {
  }

  /** An entry copied into a sector reads back as itself. */
  lemma EntryRoundTrip(s: seq<Byte>, at: nat, e: Entry)
    requires at + ENTRY <= |s| && NameOk(e.name)
    ensures EntryAt(Patch(s, at, EntryBytes(e)), at) == e
  {
    hide ByteOf, CString, WordAt;
    var r := Patch(s, at, EntryBytes(e));
    var words := BytesOf([e.ino, e.ftype]);
    var rest := Zeros(NAME_LEN - |e.name|) + words;
    assert r[at..at + ENTRY] == e.name + rest;
    CStringPadded(e.name, rest);
    assert CString(rest) == [] by { Terminated(rest); }
    assert r[at + 16..at + 20] == words[0..4];
    assert r[at + 20..at + 24] == words[4..8];
    WordMoved(r, at + 16, words, 0);
    WordMoved(r, at + 20, words, 4);
    WordOfBytes([e.ino, e.ftype], 0);
    WordOfBytes([e.ino, e.ftype], 1);
  }

  /** An entry reads the same after a copy that stays clear of it. */
  lemma EntryElsewhere(s: seq<Byte>, at: nat, t: seq<Byte>, other: nat)
    requires at + |t| <= |s| && other + ENTRY <= |s|
    requires other + ENTRY <= at || at + |t| <= other
    ensures EntryAt(Patch(s, at, t), other) == EntryAt(s, other)
  {
    hide CString;
    assert Patch(s, at, t)[other..other + ENTRY] == s[other..other + ENTRY];
  }

  lemma EntryOfZeros(s: seq<Byte>, at: nat)
    requires at + ENTRY <= |s|
    requires forall i :: at <= i < at + ENTRY ==> s[i] == 0
    ensures EntryAt(s, at) == DEAD
  {
  }

  /** The directory entries of a sector, in slot order. */
  function EntriesOf(s: Sector): (es: seq<Entry>)
    ensures |es| == PER_SECTOR
    ensures forall i :: 0 <= i < PER_SECTOR ==> es[i] == EntryAt(s, ENTRY * i)
  {
    seq(PER_SECTOR, i requires 0 <= i < PER_SECTOR => EntryAt(s, ENTRY * i))
  }

  /** Writing one entry of a sector changes that slot and no other. */
  lemma EntriesPut(s: Sector, i: nat, e: Entry)
    requires i < PER_SECTOR && NameOk(e.name)
    ensures EntriesOf(Patch(s, ENTRY * i, EntryBytes(e))) == EntriesOf(s)[i := e]
  {
    hide EntryAt;
    hide EntryBytes;
    var r := Patch(s, ENTRY * i, EntryBytes(e));
    EntryRoundTrip(s, ENTRY * i, e);
    forall k | 0 <= k < PER_SECTOR && k != i ensures EntryAt(r, ENTRY * k) == EntryAt(s, ENTRY * k) {
      EntryElsewhere(s, ENTRY * i, EntryBytes(e), ENTRY * k);
    }
  }

  /** Zeroing one entry of a sector empties that slot and no other. */
  lemma EntriesClear(s: Sector, i: nat)
    requires i < PER_SECTOR
    ensures EntriesOf(Patch(s, ENTRY * i, Zeros(ENTRY))) == EntriesOf(s)[i := DEAD]
  {
    hide EntryAt;
    var r := Patch(s, ENTRY * i, Zeros(ENTRY));
    EntryOfZeros(r, ENTRY * i);
    forall k | 0 <= k < PER_SECTOR && k != i ensures EntryAt(r, ENTRY * k) == EntryAt(s, ENTRY * k) {
      EntryElsewhere(s, ENTRY * i, Zeros(ENTRY), ENTRY * k);
    }
  }

  lemma EntriesOfZeros()
    ensures forall i :: 0 <= i < PER_SECTOR ==> EntriesOf(Zeros(SECTOR))[i] == DEAD
  {
    hide EntryAt;
    forall i | 0 <= i < PER_SECTOR ensures EntryAt(Zeros(SECTOR), ENTRY * i) == DEAD {
      EntryOfZeros(Zeros(SECTOR), ENTRY * i);
    }
  }
}
