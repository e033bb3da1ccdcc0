/** Path names (v3/fs.c:595-657): how skipelem takes a path apart and what namex resolves it to. */
module Paths {
  const DIRSIZ: nat := 14

  /** An element as it is stored: at most DIRSIZ characters. */
  function Short(s: string): string {
    if |s| >= DIRSIZ then s[..DIRSIZ] else s
  }

  /** The elements of a path, read character by character; `part` is the element being read. */
  function Tokens(path: string, part: string): seq<string> {
    if path == [] then (if part == [] then [] else [Short(part)])
    else if path[0] == '/' then (if part == [] then [] else [Short(part)]) + Tokens(path[1..], [])
    else Tokens(path[1..], part + [path[0]])
  }

  function Elements(path: string): seq<string> {
    Tokens(path, [])
  }

  predicate NoSlash(s: string) {
    forall i :: 0 <= i < |s| ==> s[i] != '/'
  }

  predicate AllSlash(s: string) {
    forall i :: 0 <= i < |s| ==> s[i] == '/'
  }

  lemma {:induction false} SkipSlashes(s: string, rest: string)
    requires AllSlash(s)
    ensures Elements(s + rest) == Elements(rest)
  {
    if s == [] {
      assert s + rest == rest;
    } else {
      assert (s + rest)[1..] == s[1..] + rest;
      SkipSlashes(s[1..], rest);
    }
  }

  lemma {:induction false} ReadElement(part: string, s: string, rest: string)
    requires NoSlash(s) && (rest != [] ==> rest[0] == '/') && part + s != []
    ensures Tokens(s + rest, part) == [Short(part + s)] + Elements(rest)
    decreases |s|
  {
    if s == [] {
      assert s + rest == rest && part + s == part;
      if rest != [] {
        assert Elements(rest) == [] + Tokens(rest[1..], []);
      }
    } else {
      assert (s + rest)[1..] == s[1..] + rest && (s + rest)[0] == s[0];
      assert part + [s[0]] + s[1..] == part + s;
      ReadElement(part + [s[0]], s[1..], rest);
    }
  }

  /** The loops of skipelem: past a run of slashes, or past a run of anything else. */
  method Span(path: string, from: nat, slashes: bool) returns (i: nat)
    requires from <= |path|
    ensures from <= i <= |path| && (i < |path| ==> (path[i] == '/') != slashes)
    ensures if slashes then AllSlash(path[from..i]) else NoSlash(path[from..i])
  {
    i := from;
    while i < |path| && (path[i] == '/') == slashes
      invariant from <= i <= |path| && forall j :: from <= j < i ==> (path[j] == '/') == slashes
    {
      i := i + 1;
    }
  }

  /** skipelem: the first element of the path and what follows it. */
  method SkipElem(path: string) returns (found: bool, name: string, rest: string)
    ensures found <==> Elements(path) != []
    ensures found ==> Elements(path) == [name] + Elements(rest) && |rest| < |path|
    ensures found ==> (rest == [] <==> Elements(rest) == [])
  {
    hide Tokens;
    var s := Span(path, 0, true);
    TakenApart(path, s);
    if s == |path| {
      assert path[s..] == [];
      NoElements();
      return false, [], [];
    }
    var e := Span(path, s, false);
    var i := Span(path, e, true);
    name, rest, found := Short(path[s..e]), path[i..], true;
    OneElement(path, s, e, i);
    if rest != [] {
      NonEmpty(rest);
    } else {
      NoElements();
    }
  }

  lemma NoElements()
    ensures Elements([]) == []
  {
  }

  lemma TakenApart(path: string, s: nat)
    requires s <= |path| && AllSlash(path[0..s])
    ensures Elements(path) == Elements(path[s..])
  {
    hide Tokens;
    SkipSlashes(path[0..s], path[s..]);
    assert path[0..s] + path[s..] == path;
  }

  lemma OneElement(path: string, s: nat, e: nat, i: nat)
    requires s < e <= i <= |path| && NoSlash(path[s..e]) && AllSlash(path[e..i]) && (e < |path| ==> path[e] == '/')
    ensures Elements(path[s..]) == [Short(path[s..e])] + Elements(path[i..])
  {
    hide Tokens, AllSlash, NoSlash;
    ReadElement([], path[s..e], path[e..]);
    assert path[s..e] + path[e..] == path[s..] && [] + path[s..e] == path[s..e];
    SkipSlashes(path[e..i], path[i..]);
    assert path[e..i] + path[i..] == path[e..];
  }

  lemma NonEmpty(path: string)
    requires path != [] && path[0] != '/'
    ensures Elements(path) != []
  {
    Pending(path[1..], [path[0]]);
    assert [] + [path[0]] == [path[0]];
  }

  lemma {:induction false} Pending(path: string, part: string)
    requires part != []
    ensures Tokens(path, part) != []
  {
    if path != [] && path[0] != '/' {
      Pending(path[1..], part + [path[0]]);
    }
  }

  // Resolution

  /** The type that create is asked for. */
  datatype NodeType = AFile | ADir | ADevice

  /** What the file system answers during a lookup: which inodes are directories and which are plain files, the
      others being devices, and what a name in a directory stands for (0 for nothing). */
  datatype Tree = Tree(isDir: int -> bool, isFile: int -> bool, look: (int, string) -> int)

  /** The inode that the elements lead to from inode `at`, 0 if there is none. */
  function Walk(tree: Tree, at: int, names: seq<string>): int
    decreases |names|
  {
    if names == [] then at
    else if !tree.isDir(at) then 0
    else
      var next := tree.look(at, names[0]);
      if next == 0 then 0 else Walk(tree, next, names[1..])
  }

  /** The directory that the last element is to be looked up in, 0 if there is none. */
  function WalkParent(tree: Tree, at: int, names: seq<string>): int {
    if names == [] then 0
    else
      var dir := Walk(tree, at, names[..|names| - 1]);
      if dir != 0 && tree.isDir(dir) then dir else 0
  }

  /** Resolving a path is resolving its directory and looking the last element up there. */
  lemma {:induction false} WalkLast(tree: Tree, at: int, names: seq<string>)
    requires names != [] && at != 0
    ensures Walk(tree, at, names)
         == if WalkParent(tree, at, names) == 0 then 0 else tree.look(WalkParent(tree, at, names), names[|names| - 1])
    decreases |names|
  {
    if |names| == 1 {
      assert names[..0] == [] && names[1..] == [];
    } else if tree.isDir(at) && tree.look(at, names[0]) != 0 {
      assert names[1..][..|names| - 2] == names[..|names| - 1][1..];
      assert names[1..][|names| - 2] == names[|names| - 1];
      WalkLast(tree, tree.look(at, names[0]), names[1..]);
    }
  }

  lemma {:induction false} TokensAppend(path: string, part: string, name: string)
    requires name != [] && NoSlash(name)
    ensures Tokens(path + ['/'] + name, part) == Tokens(path, part) + [Short(name)]
    decreases |path|
  {
    var whole := path + ['/'] + name;
    if path == [] {
      assert whole[0] == '/' && whole[1..] == name;
      ReadElement([], name, []);
      assert name + [] == name && [] + name == name;
    } else {
      assert whole[0] == path[0] && whole[1..] == path[1..] + ['/'] + name;
      TokensAppend(path[1..], if path[0] == '/' then [] else part + [path[0]], name);
    }
  }

  /** A path made longer by one element leads to the directory it led to before. */
  lemma OneElementMore(tree: Tree, at: int, path: string, name: string)
    requires name != [] && NoSlash(name) && |name| < DIRSIZ
    ensures Elements(path + ['/'] + name) == Elements(path) + [name]
    ensures var dir := Walk(tree, at, Elements(path));
            WalkParent(tree, at, Elements(path + ['/'] + name)) == if dir != 0 && tree.isDir(dir) then dir else 0
  {
    TokensAppend(path, [], name);
    var names := Elements(path) + [name];
    assert names[..|names| - 1] == Elements(path);
  }

  // Paths joined by a slash

  lemma {:induction false} TokensJoin(a: string, part: string, b: string)
    ensures Tokens(a + ['/'] + b, part) == Tokens(a, part) + Elements(b)
    decreases |a|
  {
    var whole := a + ['/'] + b;
    if a == [] {
      assert whole[0] == '/' && whole[1..] == b;
    } else {
      assert whole[0] == a[0] && whole[1..] == a[1..] + ['/'] + b;
      TokensJoin(a[1..], if a[0] == '/' then [] else part + [a[0]], b);
    }
  }

  lemma {:induction false} WalkOn(tree: Tree, at: int, xs: seq<string>, ys: seq<string>)
    requires Walk(tree, at, xs) != 0
    ensures Walk(tree, at, xs + ys) == Walk(tree, Walk(tree, at, xs), ys)
    decreases |xs|
  {
    if xs == [] {
      assert xs + ys == ys;
    } else {
      assert (xs + ys)[1..] == xs[1..] + ys;
      WalkOn(tree, tree.look(at, xs[0]), xs[1..], ys);
    }
  }

  /** A path a/b leads where b leads from where a leads. */
  lemma WalkJoined(tree: Tree, at: int, a: string, b: string)
    requires Walk(tree, at, Elements(a)) != 0
    ensures Walk(tree, at, Elements(a + "/" + b)) == Walk(tree, Walk(tree, at, Elements(a)), Elements(b))
  {
    hide Tokens, Walk;
    TokensJoin(a, [], b);
    WalkOn(tree, at, Elements(a), Elements(b));
  }

  /** An element is stored whole up to DIRSIZ characters, and a longer one by its first DIRSIZ. */
  lemma ShortIsPrefix(s: string)
    ensures Short(s) <= s && |Short(s)| == if |s| <= 14 then |s| else 14
  {
  }

  /** The examples that come with skipelem. */
  lemma ElementsOfExamples()
    ensures Elements("a/bb/c") == ["a", "bb", "c"] && Elements("///a//bb") == ["a", "bb"]
    ensures Elements("a") == ["a"] && Elements("") == [] && Elements("////") == []
  {
    hide Tokens;
    ElementsOfName("a");
    ElementsOfName("bb");
    ElementsOfName("c");
    NoElements();
    assert "a/bb/c" == "a" + ['/'] + "bb/c" && "bb/c" == "bb" + ['/'] + "c";
    TokensJoin("bb", [], "c");
    TokensJoin("a", [], "bb/c");
    SkipSlashes("////", []);
    assert "////" + [] == "////";
    SkipSlashes("///", "a//bb");
    assert "///" + "a//bb" == "///a//bb" && "a//bb" == "a" + ['/'] + "/bb" && "/bb" == "/" + "bb";
    SkipSlashes("/", "bb");
    TokensJoin("a", [], "/bb");
  }

  lemma ElementsOfName(s: string)
    requires s != [] && NoSlash(s) && |s| < DIRSIZ
    ensures Elements(s) == [s]
  {
    ReadElement([], s, []);
    assert s + [] == s && [] + s == s;
  }
}
