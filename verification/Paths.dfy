/** Path algebra: path_parse and path_depth_cnt of fs/fs.c, wash_path and
    make_clear_abs_path of shell/buildin_cmd.c. A path is a C string without its
    terminating zero; a name buffer holds 16 bytes. */
module Paths {
  import opened Common

  const MAX_FILE_NAME_LEN := 16

  // ---- what a path means ---------------------------------------------------

  function DropSlashes(p: string): string {
    if p != "" && p[0] == '/' then DropSlashes(p[1..]) else p
  }

  /** Length of the longest prefix without a slash. */
  function NameLen(p: string): (n: nat)
    ensures n <= |p| && '/' !in p[..n] && (n < |p| ==> p[n] == '/')
  {
    if p == "" || p[0] == '/' then 0
    else
      assert p[..1 + NameLen(p[1..])] == [p[0]] + p[1..][..NameLen(p[1..])];
      1 + NameLen(p[1..])
  }

  lemma DropShorter(p: string)
    ensures |DropSlashes(p)| <= |p|
    ensures DropSlashes(p) != "" ==> DropSlashes(p)[0] != '/' && NameLen(DropSlashes(p)) >= 1
  {
  }

  /** The non-empty pieces between slashes. */
  function Components(p: string): (cs: seq<string>)
    decreases |p|
  {
    DropShorter(p);
    var q := DropSlashes(p);
    if q == "" then [] else [q[..NameLen(q)]] + Components(q[NameLen(q)..])
  }

  predicate IsName(c: string) { c != "" && '/' !in c }

  predicate Names(cs: seq<string>) { forall i :: 0 <= i < |cs| ==> IsName(cs[i]) }

  lemma {:induction false} ComponentsAreNames(p: string)
    ensures Names(Components(p))
    decreases |p|
  {
    DropShorter(p);
    var q := DropSlashes(p);
    if q != "" { ComponentsAreNames(q[NameLen(q)..]); }
  }

  /** "/" for the root, otherwise "/a/b/c". */
  function Render(cs: seq<string>): string { if cs == [] then "/" else Joined(cs) }

  function Joined(cs: seq<string>): string {
    if cs == [] then "" else Joined(cs[..|cs| - 1]) + "/" + cs[|cs| - 1]
  }

  /** Stack normalisation: "." does nothing, ".." pops, and pops nothing at the root. */
  function Push(st: seq<string>, c: string): seq<string> {
    if c == ".." then (if st == [] then [] else st[..|st| - 1])
    else if c == "." then st
    else st + [c]
  }

  function Normal(st: seq<string>, cs: seq<string>): seq<string>
    decreases |cs|
  {
    if cs == [] then st else Normal(Push(st, cs[0]), cs[1..])
  }

  predicate Plain(cs: seq<string>) { Names(cs) && forall i :: 0 <= i < |cs| ==> cs[i] != "." && cs[i] != ".." }

  lemma {:induction false} NormalIsPlain(st: seq<string>, cs: seq<string>)
    requires Plain(st) && Names(cs)
    ensures Plain(Normal(st, cs))
    decreases |cs|
  {
    if cs != [] { NormalIsPlain(Push(st, cs[0]), cs[1..]); }
  }

  /** A plain list is its own normal form. */
  lemma {:induction false} NormalOfPlain(st: seq<string>, cs: seq<string>)
    requires Plain(cs)
    ensures Normal(st, cs) == st + cs
    decreases |cs|
  {
    if cs == [] {
      assert st + cs == st;
    } else {
      NormalOfPlain(st + [cs[0]], cs[1..]);
      assert st + [cs[0]] + cs[1..] == st + cs;
    }
  }

  // ---- rendering and taking apart ------------------------------------------

  lemma {:induction false} JoinedCons(c: string, cs: seq<string>)
    ensures Joined([c] + cs) == "/" + c + Joined(cs)
    decreases |cs|
  {
    if cs == [] {
      assert [c] + cs == [c] && [c][..0] == [];
      assert Joined([c]) == "" + "/" + c;
    } else {
      var n := |cs| - 1;
      JoinedCons(c, cs[..n]);
      assert ([c] + cs)[..n + 1] == [c] + cs[..n];
    }
  }

  lemma NameLenIs(c: string, t: string)
    requires IsName(c) && (t == "" || t[0] == '/')
    ensures NameLen(c + t) == |c|
  {
    assert c[0] in c;
    assert (c + t)[1..] == c[1..] + t;
    if |c| > 1 { NameLenIs(c[1..], t); }
  }

  lemma JoinedStarts(cs: seq<string>)
    ensures Joined(cs) == "" || Joined(cs)[0] == '/'
  {
    if cs != [] {
      assert cs == [cs[0]] + cs[1..];
      JoinedCons(cs[0], cs[1..]);
    }
  }

  lemma {:induction false} ComponentsOfJoined(cs: seq<string>)
    requires Names(cs)
    ensures Components(Joined(cs)) == cs
    decreases |cs|
  {
    if cs != [] {
      var c, t := cs[0], cs[1..];
      assert cs == [c] + t;
      JoinedCons(c, t);
      JoinedStarts(t);
      ComponentsOfJoined(t);
      var p := "/" + c + Joined(t);
      assert p[1..] == c + Joined(t);
      assert c[0] in c;
      assert DropSlashes(p) == c + Joined(t);
      NameLenIs(c, Joined(t));
      assert (c + Joined(t))[..|c|] == c && (c + Joined(t))[|c|..] == Joined(t);
    }
  }

  /** Rendering and splitting are inverse on lists of names. */
  lemma ComponentsOfRender(cs: seq<string>)
    requires Names(cs)
    ensures Components(Render(cs)) == cs
  {
    if cs == [] {
      assert "/"[1..] == "";
      assert DropSlashes("/") == "";
    } else {
      ComponentsOfJoined(cs);
    }
  }

  /** What washing a path means. */
  function Washed(p: string): string { Render(Normal([], Components(p))) }

  /** A washed path has no ".", ".." or empty piece, and washing it again changes
      nothing. */
  lemma WashedIsClean(p: string)
    ensures Plain(Components(Washed(p)))
    ensures Components(Washed(p)) == Normal([], Components(p))
    ensures Washed(Washed(p)) == Washed(p)
  {
    ComponentsAreNames(p);
    NormalIsPlain([], Components(p));
    var cs := Normal([], Components(p));
    ComponentsOfRender(cs);
    NormalOfPlain([], cs);
    assert [] + cs == cs;
  }

  // ---- the code ------------------------------------------------------------

  /** path_parse: the first name of `p` and what follows it, None at the end. */
  method PathParse(p: string) returns (name: string, rest: Option<string>)
    ensures Components(p) == (if name == "" then [] else [name]) + Rest(rest)
    ensures name == "" ==> rest == None && DropSlashes(p) == ""
    ensures IsName(name) || name == ""
    ensures rest.Some? ==> |rest.value| < |p|
  {
    hide DropSlashes;
    var i := SkipSlashes(p);
    var q := p[i..];
    DropShorter(p);
    name := TakeName(q);
    if |name| == |q| {
      rest := None;
    } else {
      rest := Some(q[|name|..]);
    }
    ParseSplit(p, q);
    assert |name| == |q| ==> q[|name|..] == "";
  }

  lemma ParseSplit(p: string, q: string)
    requires q == DropSlashes(p) && (q != "" ==> NameLen(q) >= 1)
    ensures Components(p) == if q == "" then [] else [q[..NameLen(q)]] + Components(q[NameLen(q)..])
    ensures Components("") == []
  {
  }

  method SkipSlashes(p: string) returns (i: nat)
    ensures i <= |p| && p[i..] == DropSlashes(p)
  {
    i := 0;
    if p != "" && p[0] == '/' {
      i := 1;
      while i < |p| && p[i] == '/'
        invariant 1 <= i <= |p| && DropSlashes(p) == DropSlashes(p[i..])
      {
        assert p[i..][1..] == p[i + 1..];
        i := i + 1;
      }
    }
  }

  method TakeName(q: string) returns (name: string)
    ensures name == q[..NameLen(q)]
  {
    name := "";
    var i := 0;
    while i < |q| && q[i] != '/'
      invariant 0 <= i <= |q| && name == q[..i]
      invariant NameLen(q) == i + NameLen(q[i..])
    {
      assert q[i..][1..] == q[i + 1..];
      name := name + [q[i]];
      i := i + 1;
    }
  }

  function Rest(rest: Option<string>): seq<string> {
    if rest.Some? then Components(rest.value) else []
  }

  /** path_depth_cnt. `junk` is the first byte of the name buffer before the
      first call: the code does not set it, and path_parse does not write it for
      a path without names, so the count is right exactly when there is a name
      or the byte happens to be 0. */
  method PathDepthCnt(pathname: string, junk: char) returns (depth: nat)
    ensures depth == |Components(pathname)| <==> Components(pathname) != [] || junk == '\0'
    ensures Components(pathname) == [] && junk != '\0' ==> depth == 1
  {
    var name, p := PathParse(pathname);
    depth := 0;
    ghost var all := Components(pathname);
    var first := true;
    while name != "" || (first && junk != '\0')
      invariant first ==> depth == 0 && all == (if name == "" then [] else [name]) + Rest(p)
      invariant !first ==> depth + |(if name == "" then [] else [name]) + Rest(p)| == if all == [] then 1 else |all|
      invariant name == "" ==> p == None
      invariant !first && all == [] ==> junk != '\0'
      decreases if p.Some? then |p.value| + 2 else if name != "" || first then 1 else 0
    {
      depth := depth + 1;
      name := "";
      first := false;
      if p.Some? {
        name, p := PathParse(p.value);
      }
    }
  }

  /** strrchr for '/'. */
  method LastSlash(s: string) returns (at: int)
    ensures -1 <= at < |s|
    ensures at >= 0 ==> s[at] == '/'
    ensures forall i :: at < i < |s| ==> s[i] != '/'
  {
    at := -1;
    for k := 0 to |s|
      invariant -1 <= at < k && (at >= 0 ==> s[at] == '/')
      invariant forall i :: at < i < k ==> s[i] != '/'
    {
      if s[k] == '/' {
        at := k;
      }
    }
  }

  /** The last slash of a rendered path is the one before its last name. */
  lemma LastSlashOfRender(st: seq<string>, at: nat)
    requires Names(st) && at < |Render(st)| && Render(st)[at] == '/'
    requires forall i :: at < i < |Render(st)| ==> Render(st)[i] != '/'
    ensures at == 0 <==> |st| <= 1
    ensures at == 0 ==> Render(st)[..1] == Render(Push(st, ".."))
    ensures at != 0 ==> Render(st)[..at] == Render(Push(st, ".."))
  {
    if st != [] {
      var t, c := st[..|st| - 1], st[|st| - 1];
      var n := |Joined(t)|;
      assert Render(st) == Joined(t) + "/" + c;
      assert Render(st)[n] == '/';
      forall i | n < i < |Render(st)|
        ensures Render(st)[i] != '/'
      {
        assert Render(st)[i] == c[i - n - 1] && c[i - n - 1] in c;
      }
      assert at == n;
      assert Render(st)[..n] == Joined(t);
    }
  }

  /** wash_path edits the output in place; the result is the normal form. */
  method WashPath(oldPath: string) returns (newPath: string)
    requires oldPath != "" && oldPath[0] == '/'
    requires forall i :: 0 <= i < |Components(oldPath)| ==> |Components(oldPath)[i]| < MAX_FILE_NAME_LEN
    ensures newPath == Washed(oldPath)
  {
    hide Components, Normal, Joined, Push;
    var name, sub := PathParse(oldPath);
    if name == "" {
      NormalStep([], []);
      return "/";
    }
    newPath := "/";
    ghost var st: seq<string> := [];
    ghost var left := [name] + Rest(sub);
    while name != ""
      invariant Names(st) && newPath == Render(st)
      invariant left == (if name == "" then [] else [name]) + Rest(sub)
      invariant name == "" ==> sub == None
      invariant IsName(name) || name == ""
      invariant Normal([], Components(oldPath)) == Normal(st, left)
      invariant forall i :: 0 <= i < |left| ==> |left[i]| < MAX_FILE_NAME_LEN
      decreases if sub.Some? then |sub.value| + 2 else if name != "" then 1 else 0
    {
      assert left[0] == name && left[1..] == Rest(sub);
      assert |name| < MAX_FILE_NAME_LEN;
      newPath := Edit(newPath, name, st);
      NormalStep(st, left);
      st := Push(st, name);
      left := left[1..];
      name := "";
      if sub.Some? {
        name, sub := PathParse(sub.value);
      }
    }
    NormalStep(st, left);
  }

  /** The edit for one name. */
  method Edit(path: string, name: string, ghost st: seq<string>) returns (newPath: string)
    requires Names(st) && path == Render(st) && IsName(name)
    ensures newPath == Render(Push(st, name)) && Names(Push(st, name))
  {
    hide Render;
    newPath := path;
    if name == ".." {
      SlashThere(st);
      var slash := LastSlash(newPath);
      LastSlashOfRender(st, slash);
      if slash != 0 {
        newPath := newPath[..slash];
      } else {
        newPath := newPath[..1];
      }
    } else if name != "." {
      RenderPush(st, name);
      if newPath != "/" {
        newPath := newPath + "/";
      }
      newPath := newPath + name;
    }
  }

  lemma NormalStep(st: seq<string>, cs: seq<string>)
    ensures Normal(st, cs) == if cs == [] then st else Normal(Push(st, cs[0]), cs[1..])
  {
  }

  lemma SlashThere(st: seq<string>)
    ensures |Render(st)| >= 1 && Render(st)[0] == '/'
  {
    JoinedStarts(st);
  }

  lemma RenderPush(st: seq<string>, c: string)
    requires Names(st) && IsName(c)
    ensures Render(st + [c]) == (if Render(st) == "/" then "/" else Render(st) + "/") + c
    ensures Render(st) == "/" <==> st == []
  {
    assert (st + [c])[..|st + [c]| - 1] == st;
    if st != [] {
      assert |Joined(st)| >= |st[|st| - 1]| + 1 >= 2;
    }
  }

  /** make_clear_abs_path: a relative path is taken from the working directory. */
  method MakeClearAbsPath(path: string, cwd: string) returns (finalPath: string)
    requires cwd != "" && cwd[0] == '/'
    requires forall c :: c in Components(cwd) || c in Components(path) ==> |c| < MAX_FILE_NAME_LEN
    ensures path != "" && path[0] == '/' ==> finalPath == Washed(path)
    ensures !(path != "" && path[0] == '/') ==> finalPath == Render(Normal([], Components(cwd) + Components(path)))
  {
    hide Components, Normal, Render;
    var absPath := "";
    if path == "" || path[0] != '/' {
      absPath := cwd;
      if absPath != "/" {
        absPath := absPath + "/";
      }
      AbsComponents(cwd, path);
    } else {
      assert absPath + path == path;
    }
    absPath := absPath + path;
    finalPath := WashPath(absPath);
  }

  lemma AbsComponents(cwd: string, path: string)
    requires path == "" || path[0] != '/'
    ensures Components((if cwd == "/" then cwd else cwd + "/") + path) == Components(cwd) + Components(path)
  {
    if cwd == "/" { RootConcat(path); } else { ComponentsOfConcat(cwd, path); }
  }

  lemma RootConcat(path: string)
    requires path == "" || path[0] != '/'
    ensures Components("/" + path) == Components(path) && Components("/") == []
  {
    assert ("/" + path)[1..] == path;
    assert DropSlashes("/" + path) == DropSlashes(path);
    assert "/"[1..] == "" && DropSlashes("/") == "";
  }

  lemma {:induction false} ComponentsOfConcat(p: string, q: string)
    ensures Components(p + "/" + q) == Components(p) + Components(q)
    decreases |p|
  {
    DropShorter(p);
    if p == "" {
      assert p + "/" + q == "/" + q && ("/" + q)[1..] == q;
      assert DropSlashes("/" + q) == DropSlashes(q);
      assert Components(p) == [];
      assert Components("/" + q) == Components(q);
    } else if p[0] == '/' {
      assert (p + "/" + q)[1..] == p[1..] + "/" + q;
      assert DropSlashes(p + "/" + q) == DropSlashes(p[1..] + "/" + q);
      assert Components(p + "/" + q) == Components(p[1..] + "/" + q);
      assert Components(p) == Components(p[1..]);
      ComponentsOfConcat(p[1..], q);
    } else {
      var n := NameLen(p);
      var c, t := p[..n], p[n..];
      assert p + "/" + q == c + (t + "/" + q);
      NameLenIs(c, t + "/" + q);
      assert (p + "/" + q)[..n] == c && (p + "/" + q)[n..] == t + "/" + q;
      ComponentsOfConcat(t, q);
    }
  }
}
