/**
 * The server's tree as a finite map from paths to nodes, what create, delete and list do to it,
 * and the recursive listing and deletion built on them.  The root is the empty path and is not in
 * the map; "/" itself is not a path of the model.
 */
module ZkTree {
  import opened Seqs
  import opened Zk
  import opened Paths

  datatype Node = Node(data: Data, ephemeral: bool)

  type Tree = map<string, Node>

  datatype Code = ZOK | ZNONODE | ZNODEEXISTS | ZNOTEMPTY | ZNOCHILDRENFOREPHEMERALS | ZBADARGUMENTS | ZOTHER(code: int)

  /** An absolute path without empty components. */
  predicate ValidPath(path: string) {
    && |path| >= 2 && path[0] == '/' && path[|path| - 1] != '/'
    && forall i, j :: 0 <= i < |path| && 0 <= j < |path| && j == i + 1 ==> !(path[i] == '/' && path[j] == '/')
  }

  /** Every node's parent is in the tree. */
  predicate PrefixClosed(t: Tree) {
    forall p :: p in t ==> ValidPath(p) && (Parent(p) == [] || Parent(p) in t)
  }

  function Children(t: Tree, path: string): set<string> { set p | p in t && Parent(p) == path }

  // ---------- below ----------

  /** `q` lies strictly below `p`. */
  predicate Below(p: string, q: string) { |p| < |q| && q[..|p|] == p && q[|p|] == '/' }

  function Subtree(t: Tree, path: string): set<string> { set q | q in t && Below(path, q) }

  lemma ParentOf(q: string)
    requires LastSlash(q) >= 0
    ensures Below(Parent(q), q)
  {}

  /** What is below a node is a child of it or below such a child: below the parent's parent. */
  lemma BelowParent(p: string, q: string)
    requires LastSlash(q) >= 0
    ensures Below(p, q) <==> Parent(q) == p || Below(p, Parent(q))
  {
    var s := LastSlash(q);
    var par := Parent(q);
    if Below(p, q) {
      assert |p| <= s;
      if |p| < s { assert par[..|p|] == q[..|p|] && par[|p|] == q[|p|]; } else { assert par == q[..|p|]; }
    }
    if Below(p, par) { assert q[..|p|] == par[..|p|] && q[|p|] == par[|p|]; }
  }

  lemma BelowTransitive(p: string, q: string, r: string)
    requires Below(p, q) && Below(q, r)
    ensures Below(p, r)
  {
    assert r[..|p|] == r[..|q|][..|p|];
    assert r[|p|] == r[..|q|][|p|];
  }

  /** A valid path starts with a slash, so it has one. */
  lemma ValidHasSlash(path: string)
    requires ValidPath(path)
    ensures LastSlash(path) >= 0 && Parent(path) != path
  {
    assert path[0] == '/';
  }

  /** Two nodes above the same one lie one above the other. */
  lemma BelowLinear(c: string, d: string, q: string)
    requires Below(c, q) && Below(d, q)
    ensures c == d || Below(c, d) || Below(d, c)
  {
    if |c| <= |d| {
      assert d[..|c|] == q[..|d|][..|c|] == c;
      assert |c| < |d| ==> d[|c|] == q[..|d|][|c|];
    } else {
      assert c[..|d|] == q[..|c|][..|d|] == d;
      assert c[|d|] == q[..|c|][|d|];
    }
  }

  /** Two children of one node do not lie below each other and have nothing below them in common. */
  lemma ChildrenApart(p: string, c: string, d: string, q: string)
    requires LastSlash(c) >= 0 && LastSlash(d) >= 0 && Parent(c) == p && Parent(d) == p && c != d
    ensures !Below(c, d) && !(Below(c, q) && Below(d, q))
  {
    BelowParent(c, d);
    BelowParent(d, c);
    if Below(c, q) && Below(d, q) { BelowLinear(c, d, q); }
  }

  // ---------- listing ----------

  /** The children of a node, in any order. */
  method GetSubPath(t: Tree, path: string) returns (rc: Code, subPaths: seq<string>)
    ensures rc == if path in t then ZOK else ZNONODE
    ensures rc == ZOK ==> Distinct(subPaths) && Elements(subPaths) == Children(t, path)
    ensures rc != ZOK ==> subPaths == []
  {
    subPaths := [];
    if path !in t {
      return ZNONODE, [];
    }
    var todo := Children(t, path);
    while todo != {}
      invariant Distinct(subPaths) && todo !! Elements(subPaths)
      invariant todo + Elements(subPaths) == Children(t, path)
      decreases todo
    {
      var c :| c in todo;
      ElementsSnoc(subPaths, c);
      subPaths := subPaths + [c];
      todo := todo - {c};
    }
    rc := ZOK;
  }

  lemma ElementsSnoc(q: seq<string>, c: string)
    ensures Elements(q + [c]) == Elements(q) + {c}
    ensures Distinct(q) && c !in q ==> Distinct(q + [c])
  {}

  lemma ElementsAppend(p: seq<string>, q: seq<string>)
    ensures Elements(p + q) == Elements(p) + Elements(q)
    ensures Distinct(p) && Distinct(q) && Elements(p) !! Elements(q) ==> Distinct(p + q)
  {
    assert forall x :: x in p + q <==> x in p || x in q;
    if Distinct(p) && Distinct(q) && Elements(p) !! Elements(q) {
      forall i, j | 0 <= i < j < |p + q| ensures (p + q)[i] != (p + q)[j] {
        if i < |p| <= j { assert p[i] in Elements(p) && q[j - |p|] in Elements(q); }
      }
    }
  }

  /** Nothing comes after a node that lies below it: deleting in this order always hits leaves. */
  predicate BottomUp(q: seq<string>) { forall i, j :: 0 <= i < j < |q| ==> !Below(q[i], q[j]) }

  /** Just in front of each node stands its subtree, and nothing else in between. */
  predicate PostOrder(t: Tree, q: seq<string>) {
    forall i :: 0 <= i < |q| ==> Follows(t, q, i)
  }

  predicate Follows(t: Tree, q: seq<string>, i: int)
    requires 0 <= i < |q|
  {
    var n := |Subtree(t, q[i])|;
    n <= i && Elements(q[i - n..i]) == Subtree(t, q[i])
  }

  /** The subtree of `path` in post-order, every node once; hence each behind everything below it. */
  ghost predicate ListsSubtree(t: Tree, path: string, q: seq<string>) {
    Distinct(q) && Elements(q) == Subtree(t, path) && BottomUp(q) && PostOrder(t, q)
  }

  /** Listing state: after some children's subtrees and the children themselves. */
  ghost predicate ListsKids(t: Tree, path: string, kids: seq<string>, q: seq<string>) {
    && Distinct(q) && BottomUp(q) && PostOrder(t, q)
    && (forall x :: x in q <==> exists k :: 0 <= k < |kids| && UnderKid(t, kids[k], x))
  }

  predicate UnderKid(t: Tree, kid: string, x: string) { x in t && (x == kid || Below(kid, x)) }

  /** One more child: its own subtree, then the child. */
  lemma OneMoreKid(t: Tree, path: string, kids: seq<string>, kid: string, q: seq<string>, sub: seq<string>)
    requires PrefixClosed(t) && ListsKids(t, path, kids, q) && ListsSubtree(t, kid, sub)
    requires kid in t && Parent(kid) == path && kid !in kids
    requires forall k :: 0 <= k < |kids| ==> kids[k] in t && Parent(kids[k]) == path
    ensures ListsKids(t, path, kids + [kid], q + (sub + [kid]))
  {
    ValidHasSlash(kid);
    var block := sub + [kid];
    BlockIsBottomUp(t, kid, sub);
    forall x | x in q
      ensures !UnderKid(t, kid, x) && !Below(x, kid) && forall y :: UnderKid(t, kid, y) ==> !Below(x, y)
    {
      var k :| 0 <= k < |kids| && UnderKid(t, kids[k], x);
      ValidHasSlash(kids[k]);
      KidsApart(t, path, kids[k], kid, x);
    }
    ElementsAppend(q, block);
    BottomUpAppend(q, block);
    BlockIsPostOrder(t, kid, sub);
    PostOrderAppend(t, q, block);
    var more := kids + [kid];
    forall x ensures x in q + block <==> exists k :: 0 <= k < |more| && UnderKid(t, more[k], x) {
      if x in q {
        var k :| 0 <= k < |kids| && UnderKid(t, kids[k], x);
        assert UnderKid(t, more[k], x);
      }
      if x in block { assert UnderKid(t, more[|kids|], x); }
      if exists k :: 0 <= k < |more| && UnderKid(t, more[k], x) {
        var k :| 0 <= k < |more| && UnderKid(t, more[k], x);
        if k < |kids| { assert UnderKid(t, kids[k], x); } else { assert x in block; }
      }
    }
  }

  lemma BlockIsBottomUp(t: Tree, kid: string, sub: seq<string>)
    requires ListsSubtree(t, kid, sub) && kid in t
    ensures Distinct(sub + [kid]) && BottomUp(sub + [kid])
    ensures forall x :: x in sub + [kid] <==> UnderKid(t, kid, x)
  {
    ElementsSnoc(sub, kid);
    assert kid !in Elements(sub);
    forall i | 0 <= i < |sub| ensures !Below(sub[i], kid) { assert sub[i] in Elements(sub); }
    forall x ensures x in sub + [kid] <==> UnderKid(t, kid, x) { assert x in sub <==> x in Elements(sub); }
  }

  lemma BlockIsPostOrder(t: Tree, kid: string, sub: seq<string>)
    requires ListsSubtree(t, kid, sub)
    ensures PostOrder(t, sub + [kid])
  {
    var block := sub + [kid];
    DistinctCount(sub);
    forall i | 0 <= i < |block| ensures Follows(t, block, i) {
      if i == |sub| {
        assert block[0..i] == sub;
      } else {
        assert Follows(t, sub, i);
        var n := |Subtree(t, sub[i])|;
        assert block[i - n..i] == sub[i - n..i];
      }
    }
  }

  lemma PostOrderAppend(t: Tree, p: seq<string>, q: seq<string>)
    requires PostOrder(t, p) && PostOrder(t, q)
    ensures PostOrder(t, p + q)
  {
    var all := p + q;
    forall i | 0 <= i < |all| ensures Follows(t, all, i) {
      var n := |Subtree(t, all[i])|;
      if i < |p| {
        assert Follows(t, p, i);
        assert all[i - n..i] == p[i - n..i];
      } else {
        assert Follows(t, q, i - |p|);
        assert all[i - n..i] == q[i - |p| - n..i - |p|];
      }
    }
  }

  lemma {:induction false} DistinctCount(q: seq<string>)
    requires Distinct(q)
    ensures |Elements(q)| == |q|
  {
    if q != [] {
      var n := |q| - 1;
      DistinctCount(q[..n]);
      assert q == q[..n] + [q[n]];
      ElementsSnoc(q[..n], q[n]);
    }
  }

  lemma KidsApart(t: Tree, path: string, a: string, b: string, x: string)
    requires LastSlash(a) >= 0 && LastSlash(b) >= 0 && Parent(a) == path && Parent(b) == path && a != b
    requires UnderKid(t, a, x)
    ensures !UnderKid(t, b, x) && !Below(x, b) && forall y :: UnderKid(t, b, y) ==> !Below(x, y)
  {
    ChildrenApart(path, a, b, x);
    ChildrenApart(path, b, a, x);
    if Below(x, b) && x != a { BelowTransitive(a, x, b); }
    forall y | UnderKid(t, b, y) ensures !Below(x, y) {
      if Below(x, y) {
        if x != a { BelowTransitive(a, x, y); }
        ChildrenApart(path, a, b, y);
      }
    }
  }

  lemma BottomUpAppend(p: seq<string>, q: seq<string>)
    requires BottomUp(p) && BottomUp(q)
    requires forall x, y :: x in p && y in q ==> !Below(x, y)
    ensures BottomUp(p + q)
  {
    forall i, j | 0 <= i < j < |p + q| ensures !Below((p + q)[i], (p + q)[j]) {
      if i < |p| <= j { assert p[i] in p && q[j - |p|] in q; }
    }
  }

  /** All children done: the whole subtree. */
  lemma KidsAreSubtree(t: Tree, path: string, kids: seq<string>, q: seq<string>)
    requires PrefixClosed(t) && path in t && ListsKids(t, path, kids, q) && Elements(kids) == Children(t, path)
    ensures ListsSubtree(t, path, q)
  {
    forall x ensures x in Elements(q) <==> x in Subtree(t, path) {
      if x in q {
        var k :| 0 <= k < |kids| && UnderKid(t, kids[k], x);
        assert kids[k] in Elements(kids);
        ValidHasSlash(kids[k]);
        ParentOf(kids[k]);
        if x != kids[k] { BelowTransitive(path, kids[k], x); }
      }
      if x in Subtree(t, path) {
        var kid := TopKid(t, path, x);
        assert kid in Elements(kids);
        var k :| 0 <= k < |kids| && kids[k] == kid;
        assert UnderKid(t, kids[k], x);
      }
    }
  }

  /** The child through which a node below `path` is reached. */
  lemma {:induction false} TopKid(t: Tree, path: string, x: string) returns (kid: string)
    requires PrefixClosed(t) && path in t && x in t && Below(path, x)
    ensures kid in Children(t, path) && UnderKid(t, kid, x)
    decreases |x|
  {
    ValidHasSlash(x);
    BelowParent(path, x);
    if Parent(x) == path {
      kid := x;
    } else {
      ParentOf(x);
      kid := TopKid(t, path, Parent(x));
      if kid != Parent(x) { BelowTransitive(kid, Parent(x), x); }
    }
  }

  lemma SubtreeShrinks(t: Tree, path: string, kid: string)
    requires kid in t && LastSlash(kid) >= 0 && Parent(kid) == path
    ensures |Subtree(t, kid)| < |Subtree(t, path)|
  {
    ParentOf(kid);
    forall x | x in Subtree(t, kid) ensures x in Subtree(t, path) { BelowTransitive(path, kid, x); }
    assert kid in Subtree(t, path) && kid !in Subtree(t, kid);
    SmallerSet(Subtree(t, kid), Subtree(t, path));
  }

  lemma SmallerSet(a: set<string>, b: set<string>)
    requires a < b
    ensures |a| < |b|
  {
    assert b == a + (b - a);
  }

  /** recursive_get_sub_path: the strict descendants of an existing path in post-order; the order of
      siblings is the server's. */
  method RecursiveGetSubPath(t: Tree, path: string) returns (rc: Code, subs: seq<string>)
    requires PrefixClosed(t)
    ensures rc == if path in t then ZOK else ZNONODE
    ensures rc == ZOK ==> ListsSubtree(t, path, subs)
    decreases |Subtree(t, path)|
  {
    subs := [];
    var subPaths;
    rc, subPaths := GetSubPath(t, path);
    if rc != ZOK {
      return;
    }
    for i := 0 to |subPaths|
      invariant ListsKids(t, path, subPaths[..i], subs)
    {
      var sub := subPaths[i];
      assert sub in Elements(subPaths);
      ValidHasSlash(sub);
      SubtreeShrinks(t, path, sub);
      var rec, below := RecursiveGetSubPath(t, sub);
      if rec != ZOK {
        return rec, subs;
      }
      assert forall k :: 0 <= k < i ==> subPaths[..i][k] in Elements(subPaths);
      OneMoreKid(t, path, subPaths[..i], sub, subs, below);
      assert subPaths[..i + 1] == subPaths[..i] + [sub];
      subs := subs + (below + [sub]);
    }
    assert subPaths[..|subPaths|] == subPaths;
    KidsAreSubtree(t, path, subPaths, subs);
  }

  /** async_recursive_get_sub_path: one asynchronous listing of the top level, then the recursion
      for each child inside its completion. */
  method AsyncRecursiveGetSubPath(t: Tree, path: string) returns (rc: Code, subs: seq<string>)
    requires PrefixClosed(t)
    ensures rc == if path in t then ZOK else ZNONODE
    ensures rc == ZOK ==> ListsSubtree(t, path, subs)
  {
    subs := [];
    var full;
    rc, full := GetSubPath(t, path);
    if rc != ZOK {
      return;
    }
    for i := 0 to |full|
      invariant ListsKids(t, path, full[..i], subs)
    {
      assert full[i] in Elements(full);
      var ec, below := RecursiveGetSubPath(t, full[i]);
      if ec != ZOK {
        return ec, [];
      }
      assert forall k :: 0 <= k < i ==> full[..i][k] in Elements(full);
      OneMoreKid(t, path, full[..i], full[i], subs, below);
      assert full[..i + 1] == full[..i] + [full[i]];
      subs := subs + (below + [full[i]]);
    }
    assert full[..|full|] == full;
    KidsAreSubtree(t, path, full, subs);
  }
}
