/** Slash-separated paths and `split_path`. */
module Paths {
  import opened Seqs
  import opened Zk

  function Slashes(path: string): nat {
    if path == [] then 0 else Slashes(path[..|path| - 1]) + if path[|path| - 1] == '/' then 1 else 0
  }

  /** The position of the last slash, -1 if there is none. */
  function LastSlash(path: string): (r: int)
    ensures -1 <= r < |path|
    ensures r >= 0 ==> path[r] == '/'
    ensures forall i :: r < i < |path| ==> path[i] != '/'
  {
    if path == [] then -1
    else if path[|path| - 1] == '/' then |path| - 1
    else LastSlash(path[..|path| - 1])
  }

  /** Everything before the last slash; the root's children have the empty path as parent. */
  function Parent(path: string): string {
    if LastSlash(path) < 0 then [] else path[..LastSlash(path)]
  }

  /** The path with all its parents, from the one without a slash down to the path itself. */
  function Chain(path: string): seq<string>
    decreases |path|
  {
    if LastSlash(path) < 0 then [path] else Chain(Parent(path)) + [path]
  }

  /** The layers that have to exist, one after the other, for the path to exist. */
  function Layers(path: string): seq<string> { Chain(path)[1..] }

  lemma {:induction false} ParentSlashes(path: string)
    ensures LastSlash(path) >= 0 ==> Slashes(path) == Slashes(Parent(path)) + 1
    ensures LastSlash(path) < 0 ==> Slashes(path) == 0
  {
    if path != [] && path[|path| - 1] != '/' {
      var short := path[..|path| - 1];
      ParentSlashes(short);
      if LastSlash(path) >= 0 { assert path[..LastSlash(path)] == short[..LastSlash(path)]; }
    }
  }

  /** The chain: its length, its ends, and each entry the parent of the next. */
  lemma {:induction false} ChainIs(path: string)
    ensures |Chain(path)| == Slashes(path) + 1
    ensures Chain(path)[|Chain(path)| - 1] == path
    ensures Slashes(Chain(path)[0]) == 0
    ensures forall i, j :: 0 <= i < |Chain(path)| && 0 <= j < |Chain(path)| && j == i + 1 ==>
              Chain(path)[i] == Parent(Chain(path)[j])
    decreases |path|
  {
    ParentSlashes(path);
    if LastSlash(path) >= 0 { ChainIs(Parent(path)); }
  }

  /** The parents cut off so far, topmost first, and the one still to be cut. */
  predicate Splitting(path: string, rest: string, splitPath: seq<string>) {
    if splitPath == [] then rest == path
    else splitPath[0] == rest && Chain(path) == Chain(rest) + splitPath[1..] + [path]
  }

  lemma SplitStep(path: string, rest: string, splitPath: seq<string>)
    requires Splitting(path, rest, splitPath) && LastSlash(rest) >= 0
    ensures Splitting(path, Parent(rest), [Parent(rest)] + splitPath)
  {
    assert ([Parent(rest)] + splitPath)[1..] == splitPath;
    if splitPath == [] {
      assert Chain(Parent(rest)) + [] == Chain(Parent(rest));
    } else {
      var top, below := Chain(Parent(rest)), splitPath[1..];
      assert [rest] + below == splitPath;
      assert Chain(rest) == top + [rest];
      Associates(top, [rest], below);
    }
  }

  /** split_path: refuses a path without a slash, else returns as many entries as there are slashes,
      each the parent of the next, the last the path itself. */
  method SplitPath(path: string) returns (r: Option<seq<string>>)
    ensures r.None? <==> Slashes(path) == 0
    ensures r.Some? ==> r.value == Layers(path) && |r.value| == Slashes(path)
  {
    ChainIs(path);
    var c := Slashes(path);
    if c == 0 {
      return None;
    }
    ParentSlashes(path);
    if c == 1 {
      ChainIs(Parent(path));
      assert Chain(path)[1..] == [path];
      return Some([path]);
    }
    var rest := path;
    var pos := LastSlash(rest);
    var splitPath: seq<string> := [];
    while pos >= 0
      invariant pos == LastSlash(rest)
      invariant Splitting(path, rest, splitPath)
      decreases |rest|
    {
      SplitStep(path, rest, splitPath);
      rest := rest[..pos];
      splitPath := [rest] + splitPath;
      pos := LastSlash(rest);
    }
    r := Some(splitPath[1..] + [path]);
    assert Chain(path)[1..] == splitPath[1..] + [path];
  }
}
