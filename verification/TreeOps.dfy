/** create_path and delete_path, synchronous and asynchronous, on the server's tree. */
module TreeOps {
  import opened Seqs
  import opened Zk
  import opened Paths
  import opened ZkTree
  import opened AsyncChain

  /** Parents are in the tree and are not ephemeral. */
  predicate Sound(t: Tree) {
    PrefixClosed(t) && forall p :: p in t && Parent(p) in t ==> !t[Parent(p)].ephemeral
  }

  // ---------- create ----------

  predicate IsSuffix(suffix: string) { forall i :: 0 <= i < |suffix| ==> suffix[i] != '/' }

  function NewName(op: CreateOp, suffix: string): string { op.path + if op.mode.sequential then suffix else "" }

  /** The server's create; `suffix` is what it appends in the sequential modes. */
  function CreateNode(t: Tree, op: CreateOp, suffix: string): (Tree, Reply) {
    var parent, name := Parent(op.path), NewName(op, suffix);
    if !ValidPath(op.path) then (t, Refused(ZBADARGUMENTS))
    else if parent != [] && parent !in t then (t, Refused(ZNONODE))
    else if parent != [] && t[parent].ephemeral then (t, Refused(ZNOCHILDRENFOREPHEMERALS))
    else if name in t then (t, Refused(ZNODEEXISTS))
    else (t[name := Node(op.data, op.mode.ephemeral)], Reply.Created(name))
  }

  function Server(suffix: string): (Tree, CreateOp) -> (Tree, Reply) {
    (t: Tree, op: CreateOp) => CreateNode(t, op, suffix)
  }

  /** No node that was there changes. */
  predicate Extends(t: Tree, u: Tree) { forall p :: p in t ==> p in u && u[p] == t[p] }

  lemma SuffixKeepsParent(path: string, suffix: string)
    requires ValidPath(path) && IsSuffix(suffix)
    ensures ValidPath(path + suffix) && Parent(path + suffix) == Parent(path)
  {
    LastSlashAppend(path, suffix);
    ValidHasSlash(path);
    var name := path + suffix;
    assert name[..LastSlash(name)] == path[..LastSlash(path)];
  }

  lemma {:induction false} LastSlashAppend(path: string, suffix: string)
    requires IsSuffix(suffix)
    ensures LastSlash(path + suffix) == LastSlash(path)
    decreases |suffix|
  {
    if suffix == [] {
      assert path + suffix == path;
    } else {
      var short := suffix[..|suffix| - 1];
      LastSlashAppend(path, short);
      assert (path + suffix)[..|path + suffix| - 1] == path + short;
    }
  }

  lemma CreateNodeKeeps(t: Tree, op: CreateOp, suffix: string)
    requires Sound(t) && IsSuffix(suffix)
    ensures var (u, r) := CreateNode(t, op, suffix);
            && Sound(u) && Extends(t, u)
            && (r.Refused? ==> u == t)
            && (r.Created? ==> r.name == NewName(op, suffix) && r.name !in t
                               && u == t[r.name := Node(op.data, op.mode.ephemeral)])
            && (!IsCreateError(CodeOf(r)) ==> NewName(op, suffix) in u)
  {
    var name := NewName(op, suffix);
    assert op.path + "" == op.path;
    if CreateNode(t, op, suffix).1.Created? {
      SuffixKeepsParent(op.path, suffix);
      AddKeepsSound(t, name, Node(op.data, op.mode.ephemeral));
    }
  }

  lemma AddKeepsSound(t: Tree, name: string, node: Node)
    requires Sound(t) && ValidPath(name) && name !in t
    requires Parent(name) == [] || (Parent(name) in t && !t[Parent(name)].ephemeral)
    ensures Sound(t[name := node])
  {
    NothingBelowNew(t, name);
    ValidHasSlash(name);
    ValidNotEmpty(t);
  }

  lemma ValidNotEmpty(t: Tree)
    requires PrefixClosed(t)
    ensures [] !in t
  {}

  /** A node that is not there has no children. */
  lemma NothingBelowNew(t: Tree, name: string)
    requires PrefixClosed(t) && name !in t && name != []
    ensures forall p :: p in t ==> Parent(p) != name
  {}

  /** What creating some layers does to the tree, whatever the outcome. */
  ghost predicate GrownBy(t: Tree, layers: seq<string>, data: Data, mode: Mode, suffix: string, d: Done<Tree>)
    requires layers != []
  {
    var path := layers[|layers| - 1];
    var name := NewName(CreateOp(path, data, mode), suffix);
    && Sound(d.state) && Extends(t, d.state)
    && (forall p :: p in d.state && p !in t ==> p in layers || p == name)
    && (d.outcome.code == ZOK ==>
          && d.outcome.name == name && name in d.state && d.state[name] == Node(data, mode.ephemeral)
          && (forall i :: 0 <= i < |layers| - 1 ==> layers[i] in d.state))
    && (d.outcome.code != ZOK ==> d.outcome.name == "")
  }

  lemma {:induction false} CreateLayersKeeps(t: Tree, layers: seq<string>, data: Data, mode: Mode, suffix: string)
    requires Sound(t) && IsSuffix(suffix) && layers != []
    ensures GrownBy(t, layers, data, mode, suffix, CreateLayers(Server(suffix), t, layers, data, mode))
    decreases |layers|
  {
    var op := LayerOp(layers, data, mode);
    var (u, r) := CreateNode(t, op, suffix);
    CreateNodeKeeps(t, op, suffix);
    if |layers| > 1 && !IsCreateError(CodeOf(r)) {
      CreateLayersKeeps(u, layers[1..], data, mode, suffix);
      var d := CreateLayers(Server(suffix), u, layers[1..], data, mode);
      assert NewName(op, suffix) == layers[0] by { assert layers[0] + "" == layers[0]; }
      assert forall p :: p in layers[1..] ==> p in layers;
      if d.outcome.code == ZOK {
        forall i | 0 <= i < |layers| - 1 ensures layers[i] in d.state {
          if i > 0 { assert layers[1..][i - 1] in d.state; }
        }
      }
    } else {
      assert op.path + "" == op.path;
      assert op.path in layers;
    }
  }

  lemma LayersStep(path: string)
    requires LastSlash(path) >= 0
    ensures Layers(path) == (if LastSlash(Parent(path)) < 0 then [] else Layers(Parent(path))) + [path]
  {
    ChainIs(Parent(path));
    if LastSlash(Parent(path)) < 0 {
      assert Chain(path) == [Parent(path)] + [path];
    }
  }

  lemma {:induction false} LayersInTree(t: Tree, path: string)
    requires PrefixClosed(t) && path in t
    ensures forall i :: 0 <= i < |Layers(path)| ==> Layers(path)[i] in t
    decreases |path|
  {
    ValidHasSlash(path);
    LayersStep(path);
    if LastSlash(Parent(path)) >= 0 { LayersInTree(t, Parent(path)); }
  }

  lemma {:induction false} ExistingLayers(t: Tree, layers: seq<string>, data: Data, mode: Mode, suffix: string)
    requires Sound(t) && layers != [] && !mode.sequential && forall i :: 0 <= i < |layers| ==> layers[i] in t
    ensures var d := CreateLayers(Server(suffix), t, layers, data, mode);
            d.state == t && d.outcome == Outcome(ZNODEEXISTS, "")
    decreases |layers|
  {
    assert layers[0] in t;
    assert layers[0] + "" == layers[0];
    if |layers| > 1 { ExistingLayers(t, layers[1..], data, mode, suffix); }
  }

  // ---------- delete ----------

  /** The server's delete. */
  function DeleteNode(t: Tree, path: string): (Tree, Code) {
    if path !in t then (t, ZNONODE)
    else if Children(t, path) != {} then (t, ZNOTEMPTY)
    else (t - {path}, ZOK)
  }

  function Deleter(): (Tree, string) -> (Tree, Code) {
    (t: Tree, path: string) => DeleteNode(t, path)
  }

  /** Whatever lies below a listed node is listed. */
  ghost predicate ClosedBelow(t: Tree, q: seq<string>) {
    forall i, y :: 0 <= i < |q| && y in t && Below(q[i], y) ==> y in q
  }

  /** The first of a bottom-up listing is a leaf. */
  lemma FirstIsLeaf(t: Tree, q: seq<string>)
    requires PrefixClosed(t) && q != [] && BottomUp(q) && ClosedBelow(t, q)
    ensures Children(t, q[0]) == {}
  {
    forall y | y in t ensures Parent(y) != q[0] {
      ValidHasSlash(y);
      ParentOf(y);
    }
  }

  /** Without its first element the listing still fits the tree. */
  lemma RestFits(t: Tree, q: seq<string>)
    requires PrefixClosed(t) && q != [] && Distinct(q) && BottomUp(q) && ClosedBelow(t, q)
    requires (forall i :: 0 <= i < |q| ==> q[i] in t) && Children(t, q[0]) == {}
    ensures var u, rest := t - {q[0]}, q[1..];
            && PrefixClosed(u) && Distinct(rest) && BottomUp(rest) && ClosedBelow(u, rest)
            && (forall i :: 0 <= i < |rest| ==> rest[i] in u)
            && u - Elements(rest) == t - Elements(q)
  {
    var u, rest := t - {q[0]}, q[1..];
    forall p | p in u ensures Parent(p) != q[0] { assert p !in Children(t, q[0]); }
    forall i, y | 0 <= i < |rest| && y in u && Below(rest[i], y) ensures y in rest {
      assert Below(q[i + 1], y);
    }
    assert Elements(q) == {q[0]} + Elements(rest);
  }

  /** Deleting bottom-up hits a leaf every time and removes exactly what is listed. */
  lemma {:induction false} DeleteBottomUp(t: Tree, q: seq<string>)
    requires PrefixClosed(t) && q != [] && Distinct(q) && BottomUp(q) && ClosedBelow(t, q)
    requires forall i :: 0 <= i < |q| ==> q[i] in t
    ensures DeleteAll(Deleter(), t, q) == Removal(t - Elements(q), q, ZOK)
    decreases |q|
  {
    FirstIsLeaf(t, q);
    RestFits(t, q);
    DeleteFirst(t, q);
    assert q == [q[0]] + q[1..];
    if |q| > 1 {
      DeleteBottomUp(t - {q[0]}, q[1..]);
    } else {
      assert Elements(q[1..]) == {} && t - {q[0]} - Elements(q[1..]) == t - {q[0]};
    }
  }

  lemma DeleteFirst(t: Tree, q: seq<string>)
    requires q != [] && q[0] in t && Children(t, q[0]) == {}
    ensures DeleteAll(Deleter(), t, q) ==
            if |q| == 1 then Removal(t - {q[0]}, [q[0]], ZOK)
            else
              var rest := DeleteAll(Deleter(), t - {q[0]}, q[1..]);
              rest.(ops := [q[0]] + rest.ops)
  {
    assert Deleter()(t, q[0]) == (t - {q[0]}, ZOK);
  }

  /** A subtree's listing with its root behind it. */
  lemma WithRoot(t: Tree, path: string, subs: seq<string>)
    requires PrefixClosed(t) && path in t && ListsSubtree(t, path, subs)
    ensures var q := subs + [path];
            && Distinct(q) && BottomUp(q) && ClosedBelow(t, q) && Elements(q) == Subtree(t, path) + {path}
            && forall i :: 0 <= i < |q| ==> q[i] in t
  {
    var q := subs + [path];
    BlockIsBottomUp(t, path, subs);
    ElementsSnoc(subs, path);
    forall i, y | 0 <= i < |q| && y in t && Below(q[i], y) ensures y in q {
      assert q[i] in q;
      if q[i] != path { BelowTransitive(path, q[i], y); }
    }
    forall i | 0 <= i < |q| ensures q[i] in t { assert q[i] in q; }
  }

  /** delete_path: an existing path goes with its whole subtree and nothing else, a missing one is
      reported and nothing changes. */
  method DeletePath(t: Tree, path: string) returns (u: Tree, rc: Code)
    requires PrefixClosed(t)
    ensures path in t ==> rc == ZOK && u == t - (Subtree(t, path) + {path})
    ensures path !in t ==> rc == ZNONODE && u == t
  {
    var ec, subs := RecursiveGetSubPath(t, path);
    if ec != ZOK {
      return t, ec;
    }
    WithRoot(t, path, subs);
    DeleteBottomUp(t, subs + [path]);
    var r := DeleteEach(Deleter(), t, subs + [path]);
    return r.state, r.code;
  }

  /** async_delete_path: the same tree and code, reported by exactly one callback. */
  method AsyncDeletePath(t: Tree, path: string) returns (u: Tree, callbacks: seq<Code>)
    requires PrefixClosed(t)
    ensures path in t ==> callbacks == [ZOK] && u == t - (Subtree(t, path) + {path})
    ensures path !in t ==> callbacks == [ZNONODE] && u == t
  {
    var ec, subs := AsyncRecursiveGetSubPath(t, path);
    if ec != ZOK {
      return t, [ec];
    }
    WithRoot(t, path, subs);
    DeleteBottomUp(t, subs + [path]);
    var r, calls := AsyncDeleteEach(Deleter(), t, subs + [path]);
    return r.state, calls;
  }

  /** What is left is still a tree. */
  lemma DeleteKeepsClosed(t: Tree, path: string)
    requires PrefixClosed(t)
    ensures PrefixClosed(t - (Subtree(t, path) + {path}))
  {
    var u := t - (Subtree(t, path) + {path});
    forall p | p in u ensures Parent(p) == [] || Parent(p) in u {
      ValidHasSlash(p);
      BelowParent(path, p);
    }
  }
}
