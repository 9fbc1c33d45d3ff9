/**
 * What create_path and delete_path come to: against any server, exactly which requests are sent and
 * what is reported; on the tree, exactly when a creation succeeds, the code when it does not, and the
 * tree it leaves.
 */
module ChainOutcome {
  import opened Seqs
  import opened Zk
  import opened Paths
  import opened ZkTree
  import opened AsyncChain
  import opened TreeOps

  // ---------- against any server ----------

  /** The server after a sequence of requests. */
  function After<S, O, R>(serve: (S, O) -> (S, R), s: S, ops: seq<O>): S
    decreases |ops|
  {
    if ops == [] then s else After(serve, serve(s, ops[0]).0, ops[1..])
  }

  /** Its reply to the i-th of them. */
  function ReplyTo<S, O, R>(serve: (S, O) -> (S, R), s: S, ops: seq<O>, i: nat): R
    requires i < |ops|
  {
    serve(After(serve, s, ops[..i]), ops[i]).1
  }

  lemma ReplyToNext<S, O, R>(serve: (S, O) -> (S, R), s: S, ops: seq<O>, i: nat)
    requires 0 < i < |ops|
    ensures ReplyTo(serve, s, ops, i) == ReplyTo(serve, serve(s, ops[0]).0, ops[1..], i - 1)
  {
    assert ops[..i][1..] == ops[1..][..i - 1] && ops[..i][0] == ops[0];
  }

  /** The first `i` replies are all fine. */
  ghost predicate AllFine<S, O, R>(serve: (S, O) -> (S, R), s: S, ops: seq<O>, fine: R -> bool, i: nat)
    requires i <= |ops|
  {
    forall j :: 0 <= j < i ==> fine(ReplyTo(serve, s, ops, j))
  }

  lemma AllFineNext<S, O, R>(serve: (S, O) -> (S, R), s: S, ops: seq<O>, fine: R -> bool, i: nat)
    requires 0 < i <= |ops|
    ensures AllFine(serve, s, ops, fine, i) <==>
              fine(serve(s, ops[0]).1) && AllFine(serve, serve(s, ops[0]).0, ops[1..], fine, i - 1)
  {
    var s' := serve(s, ops[0]).0;
    assert ops[..0] == [] && ReplyTo(serve, s, ops, 0) == serve(s, ops[0]).1;
    forall j | 0 < j < i ensures ReplyTo(serve, s, ops, j) == ReplyTo(serve, s', ops[1..], j - 1) {
      ReplyToNext(serve, s, ops, j);
    }
    if AllFine(serve, s, ops, fine, i) {
      forall j | 0 <= j < i - 1 ensures fine(ReplyTo(serve, s', ops[1..], j)) {
        assert fine(ReplyTo(serve, s, ops, j + 1));
      }
    }
  }

  /** The requests are sent in order, each of them if and only if every earlier reply was fine. */
  ghost predicate SentWhileFine<S, O, R>(serve: (S, O) -> (S, R), s: S, all: seq<O>, fine: R -> bool, sent: seq<O>) {
    && 1 <= |sent| <= |all| && sent == all[..|sent|]
    && forall i: nat {:trigger AllFine(serve, s, all, fine, i)} :: i < |all| ==>
         (i < |sent| <==> AllFine(serve, s, all, fine, i))
  }

  lemma OneSent<S, O, R>(serve: (S, O) -> (S, R), s: S, all: seq<O>, fine: R -> bool)
    requires all != [] && (|all| == 1 || !fine(serve(s, all[0]).1))
    ensures SentWhileFine(serve, s, all, fine, [all[0]]) && After(serve, s, [all[0]]) == serve(s, all[0]).0
    ensures ReplyTo(serve, s, all, 0) == serve(s, all[0]).1
  {
    assert all[..0] == [] && [all[0]][1..] == [] && [all[0]] == all[..1];
    assert After(serve, serve(s, all[0]).0, []) == serve(s, all[0]).0;
    forall i: nat | 0 < i < |all| ensures !AllFine(serve, s, all, fine, i) { AllFineNext(serve, s, all, fine, i); }
  }

  lemma MoreSent<S, O, R>(serve: (S, O) -> (S, R), s: S, all: seq<O>, fine: R -> bool, rest: seq<O>)
    requires |all| > 1 && fine(serve(s, all[0]).1)
    requires SentWhileFine(serve, serve(s, all[0]).0, all[1..], fine, rest)
    ensures var sent := [all[0]] + rest;
            && SentWhileFine(serve, s, all, fine, sent)
            && After(serve, s, sent) == After(serve, serve(s, all[0]).0, rest)
            && ReplyTo(serve, s, all, |rest|) == ReplyTo(serve, serve(s, all[0]).0, all[1..], |rest| - 1)
  {
    var sent := [all[0]] + rest;
    assert sent[1..] == rest && sent == all[..|sent|];
    ReplyToNext(serve, s, all, |rest|);
    forall i: nat | i < |all| ensures i < |sent| <==> AllFine(serve, s, all, fine, i) {
      if i > 0 { AllFineNext(serve, s, all, fine, i); }
    }
  }

  /** All the requests of a creation: plain empty nodes for the layers, the node itself last. */
  function AllCreates(layers: seq<string>, data: Data, mode: Mode): seq<CreateOp> {
    seq(|layers|, i requires 0 <= i < |layers| =>
      if i == |layers| - 1 then CreateOp(layers[i], data, mode)
      else CreateOp(layers[i], None, Mode(false, false, false)))
  }

  /** Success, or the node was already there. */
  predicate Tolerated(r: Reply) { r.Created? || r.code == ZOK || r.code == ZNODEEXISTS }

  function Reported(r: Reply): Outcome { if r.Created? then Outcome(ZOK, r.name) else Outcome(r.code, "") }

  /** A creation sends its requests in order, each of them if and only if every earlier reply was success
      or ZNODEEXISTS, and reports the reply to the last one sent. */
  lemma {:induction false} CreatesWhileTolerated<S>(serve: (S, CreateOp) -> (S, Reply), s: S, layers: seq<string>,
                                                    data: Data, mode: Mode)
    requires layers != []
    ensures var all, d := AllCreates(layers, data, mode), CreateLayers(serve, s, layers, data, mode);
            && SentWhileFine(serve, s, all, Tolerated, d.ops) && d.state == After(serve, s, d.ops)
            && d.outcome == Reported(ReplyTo(serve, s, all, |d.ops| - 1))
    decreases |layers|
  {
    var all := AllCreates(layers, data, mode);
    FirstCreate(serve, s, layers, data, mode);
    if |layers| == 1 || !Tolerated(serve(s, all[0]).1) {
      OneSent(serve, s, all, Tolerated);
    } else {
      var s' := serve(s, all[0]).0;
      CreatesWhileTolerated(serve, s', layers[1..], data, mode);
      MoreSent(serve, s, all, Tolerated, CreateLayers(serve, s', layers[1..], data, mode).ops);
    }
  }

  /** A creation by its first request. */
  lemma FirstCreate<S>(serve: (S, CreateOp) -> (S, Reply), s: S, layers: seq<string>, data: Data, mode: Mode)
    requires layers != []
    ensures var all, d := AllCreates(layers, data, mode), CreateLayers(serve, s, layers, data, mode);
            var (s', r) := serve(s, all[0]);
            && all[1..] == AllCreates(layers[1..], data, mode)
            && (if |layers| == 1 || !Tolerated(r) then d == Done(s', [all[0]], Reported(r))
                else
                  var rest := CreateLayers(serve, s', layers[1..], data, mode);
                  d == rest.(ops := [all[0]] + rest.ops))
  {
    assert AllCreates(layers, data, mode)[0] == LayerOp(layers, data, mode);
  }

  predicate Succeeded(code: Code) { code == ZOK }

  /** A deletion sends its requests in order, each of them if and only if every earlier one succeeded,
      and reports the reply to the last one sent. */
  lemma {:induction false} DeletesWhileOk<S>(serve: (S, string) -> (S, Code), s: S, all: seq<string>)
    requires all != []
    ensures var d := DeleteAll(serve, s, all);
            && SentWhileFine(serve, s, all, Succeeded, d.ops) && d.state == After(serve, s, d.ops)
            && d.code == ReplyTo(serve, s, all, |d.ops| - 1)
    decreases |all|
  {
    if |all| == 1 || serve(s, all[0]).1 != ZOK {
      OneSent(serve, s, all, Succeeded);
    } else {
      var s' := serve(s, all[0]).0;
      DeletesWhileOk(serve, s', all[1..]);
      MoreSent(serve, s, all, Succeeded, DeleteAll(serve, s', all[1..]).ops);
    }
  }

  // ---------- on the tree ----------

  /** The server refuses to create the path: it is malformed, or its parent may not have children. */
  predicate Blocked(t: Tree, p: string) { !ValidPath(p) || (Parent(p) in t && t[Parent(p)].ephemeral) }

  function Refusal(p: string): Code { if !ValidPath(p) then ZBADARGUMENTS else ZNOCHILDRENFOREPHEMERALS }

  /** The first layer the server refuses, the number of layers if there is none. */
  function FirstBlocked(t: Tree, layers: seq<string>): (k: nat)
    ensures k <= |layers| && (k < |layers| ==> Blocked(t, layers[k]))
    ensures forall i :: 0 <= i < k ==> !Blocked(t, layers[i])
  {
    if layers == [] || Blocked(t, layers[0]) then 0 else 1 + FirstBlocked(t, layers[1..])
  }

  /** The tree with the missing ones among these paths added as plain empty nodes. */
  function Filled(t: Tree, paths: seq<string>): Tree {
    map p | p in t.Keys + Elements(paths) :: if p in t then t[p] else Node(None, false)
  }

  function NameFor(path: string, mode: Mode, suffix: string): string { path + if mode.sequential then suffix else "" }

  /** What a creation comes to. Up to the first layer that is refused the missing layers are created; if
      none is, the new node is created too unless its name is taken. */
  predicate CreatesExactly(t: Tree, layers: seq<string>, data: Data, mode: Mode, suffix: string, state: Tree,
                           outcome: Outcome)
    requires layers != []
  {
    var k, n := FirstBlocked(t, layers), |layers| - 1;
    var name := NameFor(layers[n], mode, suffix);
    if k <= n then outcome == Outcome(Refusal(layers[k]), "") && state == Filled(t, layers[..k])
    else if name in t then outcome == Outcome(ZNODEEXISTS, "") && state == Filled(t, layers[..n])
    else outcome == Outcome(ZOK, name) && state == Filled(t, layers[..n])[name := Node(data, mode.ephemeral)]
  }

  /** Each layer is the parent of the next and shorter; the first one's parent is the root or there. */
  predicate Ladder(t: Tree, layers: seq<string>) {
    && (forall i, j :: 0 <= i < |layers| && 0 <= j < |layers| && j == i + 1 ==> layers[i] == Parent(layers[j]))
    && (forall i :: 0 <= i < |layers| - 1 ==> |layers[i]| < |layers[|layers| - 1]|)
    && (layers != [] && ValidPath(layers[0]) ==> Parent(layers[0]) == [] || Parent(layers[0]) in t)
  }

  lemma FilledMore(t: Tree, q: seq<string>, k: nat)
    requires q != [] && 1 <= k <= |q|
    ensures Filled(Filled(t, [q[0]]), q[1..][..k - 1]) == Filled(t, q[..k])
  {
    assert q[..k] == [q[0]] + q[1..][..k - 1];
  }

  lemma FilledNone(t: Tree)
    ensures Filled(t, []) == t
  {}

  /** Adding a layer that is not refused blocks and unblocks nothing. */
  lemma SameBlocked(t: Tree, layer: string, p: string)
    ensures Blocked(Filled(t, [layer]), p) <==> Blocked(t, p)
  {}

  lemma {:induction false} SameFirstBlocked(t: Tree, layer: string, layers: seq<string>)
    ensures FirstBlocked(Filled(t, [layer]), layers) == FirstBlocked(t, layers)
  {
    if layers != [] {
      SameBlocked(t, layer, layers[0]);
      SameFirstBlocked(t, layer, layers[1..]);
    }
  }

  /** One layer: refused, already there, or created as a plain empty node. */
  lemma LayerCreated(t: Tree, layers: seq<string>, data: Data, mode: Mode, suffix: string)
    requires Sound(t) && |layers| > 1 && Ladder(t, layers)
    ensures var (u, r) := CreateNode(t, LayerOp(layers, data, mode), suffix);
            if Blocked(t, layers[0]) then u == t && r == Refused(Refusal(layers[0]))
            else u == Filled(t, [layers[0]]) && Sound(u) && !IsCreateError(CodeOf(r))
  {
    var op := LayerOp(layers, data, mode);
    assert layers[0] + "" == layers[0];
    if !Blocked(t, layers[0]) && layers[0] !in t { AddKeepsSound(t, layers[0], Node(None, false)); }
    if !Blocked(t, layers[0]) {
      assert layers[0] !in t ==> Filled(t, [layers[0]]) == t[layers[0] := Node(None, false)];
      assert layers[0] in t ==> Filled(t, [layers[0]]) == t;
    }
  }

  lemma {:induction false} LadderCreated(t: Tree, layers: seq<string>, data: Data, mode: Mode, suffix: string)
    requires Sound(t) && layers != [] && Ladder(t, layers)
    ensures var d := CreateLayers(Server(suffix), t, layers, data, mode);
            CreatesExactly(t, layers, data, mode, suffix, d.state, d.outcome)
    decreases |layers|
  {
    FilledNone(t);
    if |layers| == 1 {
      assert layers[..0] == [];
      assert FirstBlocked(t, layers) == if Blocked(t, layers[0]) then 0 else 1;
    } else {
      LayerCreated(t, layers, data, mode, suffix);
      if Blocked(t, layers[0]) {
        assert layers[..0] == [];
      } else {
        LadderGoesOn(t, layers, data, mode, suffix);
      }
    }
  }

  lemma {:induction false} LadderGoesOn(t: Tree, layers: seq<string>, data: Data, mode: Mode, suffix: string)
    requires Sound(t) && |layers| > 1 && Ladder(t, layers) && !Blocked(t, layers[0])
    ensures var d := CreateLayers(Server(suffix), t, layers, data, mode);
            CreatesExactly(t, layers, data, mode, suffix, d.state, d.outcome)
    decreases |layers|, 0
  {
    var u, rest := Filled(t, [layers[0]]), layers[1..];
    LayerCreated(t, layers, data, mode, suffix);
    LadderRest(t, layers);
    LadderCreated(u, rest, data, mode, suffix);
    var d := CreateLayers(Server(suffix), u, rest, data, mode);
    LayersAbove(t, layers, data, mode, suffix, d.state, d.outcome);
  }

  /** One more layer above what has been created. */
  lemma LayersAbove(t: Tree, layers: seq<string>, data: Data, mode: Mode, suffix: string, state: Tree,
                    outcome: Outcome)
    requires |layers| > 1 && Ladder(t, layers) && !Blocked(t, layers[0])
    requires CreatesExactly(Filled(t, [layers[0]]), layers[1..], data, mode, suffix, state, outcome)
    ensures CreatesExactly(t, layers, data, mode, suffix, state, outcome)
  {
    var rest := layers[1..];
    SameFirstBlocked(t, layers[0], rest);
    var k, n := FirstBlocked(t, rest), |rest| - 1;
    FilledMore(t, layers, k + 1);
    FilledMore(t, layers, n + 1);
    var name := NameFor(rest[n], mode, suffix);
    assert name in Filled(t, [layers[0]]) <==> name in t;
  }

  lemma LadderRest(t: Tree, layers: seq<string>)
    requires |layers| > 1 && Ladder(t, layers)
    ensures Ladder(Filled(t, [layers[0]]), layers[1..])
  {
    var rest := layers[1..];
    forall i | 0 <= i < |rest| - 1 ensures |rest[i]| < |rest[|rest| - 1]| { assert rest[i] == layers[i + 1]; }
    assert layers[0] in Elements([layers[0]]);
  }

  // ---------- a whole path ----------

  lemma {:induction false} ValidParent(path: string)
    requires ValidPath(path)
    ensures Parent(path) == [] || ValidPath(Parent(path))
  {
    ValidHasSlash(path);
    var s := LastSlash(path);
    if s > 0 {
      assert path[s] == '/' && path[s - 1] != '/';
      assert Parent(path)[0] == '/';
      assert s >= 2;
    }
  }

  /** Each layer of a path is shorter than the path. */
  lemma {:induction false} LayersShorter(path: string)
    requires LastSlash(path) >= 0
    ensures forall i :: 0 <= i < |Layers(path)| - 1 ==> |Layers(path)[i]| < |path|
    decreases |path|
  {
    LayersStep(path);
    ChainIs(path);
    ChainIs(Parent(path));
    if LastSlash(Parent(path)) >= 0 { LayersShorter(Parent(path)); }
  }

  /** The first layer's parent is the root, unless the layer is malformed. */
  lemma FirstLayer(path: string)
    requires LastSlash(path) >= 0
    ensures Layers(path) != [] && Layers(path)[|Layers(path)| - 1] == path
    ensures ValidPath(Layers(path)[0]) ==> Parent(Layers(path)[0]) == []
  {
    ChainIs(path);
    ParentSlashes(path);
    var chain := Chain(path);
    assert chain[0] == Parent(chain[1]) && Slashes(chain[0]) == 0;
    ParentSlashes(chain[0]);
    if ValidPath(chain[1]) { ValidParent(chain[1]); if chain[0] != [] { ValidHasSlash(chain[0]); } }
  }

  lemma LayersAreLadder(t: Tree, path: string)
    requires LastSlash(path) >= 0
    ensures Layers(path) != [] && Layers(path)[|Layers(path)| - 1] == path && Ladder(t, Layers(path))
  {
    FirstLayer(path);
    LayersShorter(path);
    ChainIs(path);
    var layers, chain := Layers(path), Chain(path);
    forall i, j | 0 <= i < |layers| && 0 <= j < |layers| && j == i + 1 ensures layers[i] == Parent(layers[j]) {
      assert layers[i] == chain[i + 1] && layers[j] == chain[j + 1];
    }
  }

  lemma {:induction false} ValidLayers(path: string)
    requires ValidPath(path)
    ensures forall i :: 0 <= i < |Layers(path)| ==> ValidPath(Layers(path)[i])
    decreases |path|
  {
    ValidHasSlash(path);
    LayersStep(path);
    ValidParent(path);
    if LastSlash(Parent(path)) >= 0 { ValidLayers(Parent(path)); }
  }

  /** An existing node among the layers above the path may not have children. */
  predicate UnderEphemeral(t: Tree, path: string) {
    exists i :: 0 <= i < |Layers(path)| - 1 && Layers(path)[i] in t && t[Layers(path)[i]].ephemeral
  }

  /** A layer of a well-formed path is refused exactly if the layer above it is ephemeral. */
  lemma LayerBlocked(t: Tree, path: string, i: nat)
    requires Sound(t) && ValidPath(path) && LastSlash(path) >= 0 && i < |Layers(path)|
    ensures Blocked(t, Layers(path)[i]) <==>
              i > 0 && Layers(path)[i - 1] in t && t[Layers(path)[i - 1]].ephemeral
  {
    ValidLayers(path);
    FirstLayer(path);
    LayersAreLadder(t, path);
    ValidNotEmpty(t);
    if i > 0 { assert Layers(path)[i - 1] == Parent(Layers(path)[i]); }
  }

  /** Something is refused exactly for a malformed path or one below an ephemeral node. */
  lemma BlockedSomewhere(t: Tree, path: string)
    requires Sound(t) && LastSlash(path) >= 0
    ensures FirstBlocked(t, Layers(path)) < |Layers(path)| <==> !ValidPath(path) || UnderEphemeral(t, path)
  {
    FirstLayer(path);
    var layers := Layers(path);
    var k := FirstBlocked(t, layers);
    if ValidPath(path) {
      if k < |layers| { LayerBlocked(t, path, k); }
      if UnderEphemeral(t, path) {
        var i :| 0 <= i < |layers| - 1 && layers[i] in t && t[layers[i]].ephemeral;
        LayerBlocked(t, path, i + 1);
      }
    } else {
      assert Blocked(t, layers[|layers| - 1]);
    }
  }

  /** When a creation succeeds. */
  predicate Succeeds(t: Tree, path: string, mode: Mode, suffix: string) {
    ValidPath(path) && !UnderEphemeral(t, path) && NameFor(path, mode, suffix) !in t
  }

  /** create_path on the tree. It succeeds if and only if the path is well-formed, no existing node above
      it is ephemeral and the new node's name is free; `CreatesExactly` gives the code and the tree in
      every case. The tree stays sound and no node that was there changes. */
  method CreateOnTree(t: Tree, path: string, data: Data, mode: Mode, ttl: int, suffix: string)
    returns (r: Option<Done<Tree>>)
    requires Sound(t) && IsSuffix(suffix)
    ensures r.None? <==> Throws(path, mode, ttl)
    ensures r.Some? ==>
              var d := r.value;
              && Sound(d.state) && Extends(t, d.state)
              && Layers(path) != [] && CreatesExactly(t, Layers(path), data, mode, suffix, d.state, d.outcome)
              && (d.outcome.code == ZOK <==> Succeeds(t, path, mode, suffix))
              && (path in t && !mode.sequential ==> d.state == t && d.outcome == Outcome(ZNODEEXISTS, ""))
  {
    r := CreatePath(Server(suffix), t, path, data, mode, ttl);
    if r.Some? { PathCreated(t, path, data, mode, suffix); }
  }

  /** async_create_path on the tree: the same tree, and one callback with the same outcome. */
  method AsyncCreateOnTree(t: Tree, path: string, data: Data, mode: Mode, ttl: int, suffix: string)
    returns (r: Option<Done<Tree>>, callbacks: seq<Outcome>)
    requires Sound(t) && IsSuffix(suffix)
    ensures r.None? <==> Throws(path, mode, ttl)
    ensures callbacks == if r.Some? then [r.value.outcome] else []
    ensures r.Some? ==>
              var d := r.value;
              && Sound(d.state) && Extends(t, d.state)
              && Layers(path) != [] && CreatesExactly(t, Layers(path), data, mode, suffix, d.state, d.outcome)
              && (d.outcome.code == ZOK <==> Succeeds(t, path, mode, suffix))
  {
    r, callbacks := AsyncCreatePath(Server(suffix), t, path, data, mode, ttl);
    if r.Some? { PathCreated(t, path, data, mode, suffix); }
  }

  lemma PathCreated(t: Tree, path: string, data: Data, mode: Mode, suffix: string)
    requires Sound(t) && IsSuffix(suffix) && Layers(path) != []
    ensures var d := CreateLayers(Server(suffix), t, Layers(path), data, mode);
            && Sound(d.state) && Extends(t, d.state)
            && CreatesExactly(t, Layers(path), data, mode, suffix, d.state, d.outcome)
            && (d.outcome.code == ZOK <==> Succeeds(t, path, mode, suffix))
            && (path in t && !mode.sequential ==> d.state == t && d.outcome == Outcome(ZNODEEXISTS, ""))
  {
    ChainIs(path);
    ParentSlashes(path);
    LayersAreLadder(t, path);
    CreateLayersKeeps(t, Layers(path), data, mode, suffix);
    LadderCreated(t, Layers(path), data, mode, suffix);
    BlockedSomewhere(t, path);
    if path in t && !mode.sequential {
      LayersInTree(t, path);
      ExistingLayers(t, Layers(path), data, mode, suffix);
    }
  }
}
