/**
 * create_path and delete_path, each as the loop that waits for every reply and as the chain of
 * completions that pops a deque, against a server that may answer anything.  The server is a
 * function of its own state and the operation, so every pattern of results is covered.
 */
module AsyncChain {
  import opened Zk
  import opened Paths
  import opened ZkTree

  datatype Mode = Mode(sequential: bool, ephemeral: bool, ttl: bool)

  const PERSISTENT := Mode(false, false, false)

  datatype CreateOp = CreateOp(path: string, data: Data, mode: Mode)

  /** The server returns a name only with success. */
  datatype Reply = Created(name: string) | Refused(code: Code)

  function CodeOf(r: Reply): Code { if r.Created? then ZOK else r.code }

  function NameOf(r: Reply): string { if r.Created? then r.name else "" }

  datatype Outcome = Outcome(code: Code, name: string)

  /** What a run leaves behind: the server's state, the operations it was sent, the result. */
  datatype Done<S> = Done(state: S, ops: seq<CreateOp>, outcome: Outcome)

  // ---------- creating ----------

  predicate IsCreateError(code: Code) { code != ZOK && code != ZNODEEXISTS }

  function LayerOp(layers: seq<string>, data: Data, mode: Mode): CreateOp
    requires layers != []
  {
    if |layers| == 1 then CreateOp(layers[0], data, mode) else CreateOp(layers[0], None, PERSISTENT)
  }

  /** Create layer after layer, tolerate the ones that exist, stop at the first other error. */
  function CreateLayers<S>(serve: (S, CreateOp) -> (S, Reply), s: S, layers: seq<string>, data: Data,
                           mode: Mode): Done<S>
    requires layers != []
    decreases |layers|
  {
    var op := LayerOp(layers, data, mode);
    var (s', r) := serve(s, op);
    if |layers| == 1 then Done(s', [op], Outcome(CodeOf(r), NameOf(r)))
    else if IsCreateError(CodeOf(r)) then Done(s', [op], Outcome(CodeOf(r), ""))
    else
      var rest := CreateLayers(serve, s', layers[1..], data, mode);
      rest.(ops := [op] + rest.ops)
  }

  /** What is left to do after `ops`: create the remaining layers. */
  ghost predicate Remains<S>(whole: Done<S>, serve: (S, CreateOp) -> (S, Reply), s: S, layers: seq<string>,
                             data: Data, mode: Mode, ops: seq<CreateOp>)
    requires layers != []
  {
    var rest := CreateLayers(serve, s, layers, data, mode);
    whole == rest.(ops := ops + rest.ops)
  }

  /** One reply: the creation is over with it, or the next layer remains. */
  lemma OneLayer<S>(whole: Done<S>, serve: (S, CreateOp) -> (S, Reply), s: S, layers: seq<string>,
                    data: Data, mode: Mode, ops: seq<CreateOp>)
    requires layers != [] && Remains(whole, serve, s, layers, data, mode, ops)
    ensures var op := LayerOp(layers, data, mode);
            var (s', r) := serve(s, op);
            if IsCreateError(CodeOf(r)) || |layers| == 1 then
              whole == Done(s', ops + [op], Outcome(CodeOf(r), NameOf(r)))
            else
              Remains(whole, serve, s', layers[1..], data, mode, ops + [op])
  {
    var op := LayerOp(layers, data, mode);
    var (s', r) := serve(s, op);
    if |layers| > 1 && !IsCreateError(CodeOf(r)) {
      var tail := CreateLayers(serve, s', layers[1..], data, mode).ops;
      assert ops + ([op] + tail) == (ops + [op]) + tail;
    }
  }

  /** A call that throws: a ttl mode without a ttl, or a path without a slash. */
  predicate Throws(path: string, mode: Mode, ttl: int) { (mode.ttl && ttl < 0) || Slashes(path) == 0 }

  method CreatePath<S>(serve: (S, CreateOp) -> (S, Reply), s0: S, path: string, data: Data, mode: Mode, ttl: int)
    returns (r: Option<Done<S>>)
    ensures r.None? <==> Throws(path, mode, ttl)
    ensures r.Some? ==> Layers(path) != [] && r.value == CreateLayers(serve, s0, Layers(path), data, mode)
  {
    if mode.ttl && ttl < 0 {
      return None;
    }
    var split := SplitPath(path);
    if split.None? {
      return None;
    }
    var spPath := split.value;
    var s := s0;
    var ops: seq<CreateOp> := [];
    ghost var whole := CreateLayers(serve, s0, spPath, data, mode);
    assert spPath[0..] == spPath;
    for i := 0 to |spPath| - 1
      invariant Remains(whole, serve, s, spPath[i..], data, mode, ops)
    {
      OneLayer(whole, serve, s, spPath[i..], data, mode, ops);
      assert spPath[i..][1..] == spPath[i + 1..];
      var op := CreateOp(spPath[i], None, PERSISTENT);
      var (s', reply) := serve(s, op);
      if IsCreateError(CodeOf(reply)) {
        return Some(Done(s', ops + [op], Outcome(CodeOf(reply), "")));
      }
      s, ops := s', ops + [op];
    }
    OneLayer(whole, serve, s, spPath[|spPath| - 1..], data, mode, ops);
    ChainIs(path);
    var op := CreateOp(path, data, mode);
    var (s', reply) := serve(s, op);
    r := Some(Done(s', ops + [op], Outcome(CodeOf(reply), NameOf(reply))));
  }

  /** The user data of an asynchronous creation: the deque its completion pops, and the callback. */
  class CreateChain {
    const data: Data
    const mode: Mode
    var splitPaths: seq<string>
    var outstanding: Option<CreateOp>
    var callbacks: seq<Outcome>

    /** One request is under way for the front of the deque, or the callback has been made. */
    ghost predicate Valid()
      reads this
    {
      if outstanding.Some? then
        splitPaths != [] && outstanding.value == LayerOp(splitPaths, data, mode) && callbacks == []
      else |callbacks| == 1
    }

    constructor (splitPaths: seq<string>, data: Data, mode: Mode)
      requires splitPaths != []
      ensures Valid() && outstanding.Some? && this.splitPaths == splitPaths && this.data == data && this.mode == mode
    {
      this.splitPaths, this.data, this.mode := splitPaths, data, mode;
      callbacks := [];
      outstanding := if |splitPaths| == 1 then Some(CreateOp(splitPaths[0], data, mode))
                     else Some(CreateOp(splitPaths[0], None, PERSISTENT));
    }

    method Completion(reply: Reply)
      requires Valid() && outstanding.Some?
      modifies this
      ensures Valid() && splitPaths == old(splitPaths)[1..]
      ensures var stop := IsCreateError(CodeOf(reply)) || |old(splitPaths)| == 1;
              && (outstanding.None? <==> stop)
              && (stop ==> callbacks == [Outcome(CodeOf(reply), NameOf(reply))])
    {
      splitPaths := splitPaths[1..];
      var createError := CodeOf(reply) != ZOK && CodeOf(reply) != ZNODEEXISTS;
      if createError || splitPaths == [] {
        callbacks := callbacks + [Outcome(CodeOf(reply), NameOf(reply))];
        outstanding := None;
        return;
      }
      if |splitPaths| == 1 {
        outstanding := Some(CreateOp(splitPaths[0], data, mode));
      } else {
        outstanding := Some(CreateOp(splitPaths[0], None, PERSISTENT));
      }
    }
  }

  /** async_create_path does what create_path does: the same operations in the same order, the same
      server state, code and name, and exactly one callback. */
  method AsyncCreatePath<S>(serve: (S, CreateOp) -> (S, Reply), s0: S, path: string, data: Data, mode: Mode, ttl: int)
    returns (r: Option<Done<S>>, callbacks: seq<Outcome>)
    ensures r.None? <==> Throws(path, mode, ttl)
    ensures r.None? ==> callbacks == []
    ensures r.Some? ==> Layers(path) != [] && r.value == CreateLayers(serve, s0, Layers(path), data, mode)
    ensures r.Some? ==> callbacks == [r.value.outcome]
  {
    if mode.ttl && ttl < 0 {
      return None, [];
    }
    var split := SplitPath(path);
    if split.None? {
      return None, [];
    }
    var s := s0;
    var ops: seq<CreateOp> := [];
    var chain := new CreateChain(split.value, data, mode);
    ghost var whole := CreateLayers(serve, s0, split.value, data, mode);
    while chain.outstanding.Some?
      invariant chain.Valid()
      invariant chain.outstanding.Some? ==> Remains(whole, serve, s, chain.splitPaths, chain.data, chain.mode, ops)
      invariant chain.outstanding.None? ==> whole == Done(s, ops, chain.callbacks[0])
      decreases chain.outstanding.Some?, |chain.splitPaths|
    {
      OneLayer(whole, serve, s, chain.splitPaths, chain.data, chain.mode, ops);
      var op := chain.outstanding.value;
      var (s', reply) := serve(s, op);
      chain.Completion(reply);
      s, ops := s', ops + [op];
    }
    return Some(Done(s, ops, chain.callbacks[0])), chain.callbacks;
  }

  // ---------- deleting ----------

  datatype Removal<S> = Removal(state: S, ops: seq<string>, code: Code)

  /** Delete path after path, stop at the first error. */
  function DeleteAll<S>(serve: (S, string) -> (S, Code), s: S, subs: seq<string>): Removal<S>
    requires subs != []
    decreases |subs|
  {
    var (s', code) := serve(s, subs[0]);
    if code != ZOK || |subs| == 1 then Removal(s', [subs[0]], code)
    else
      var rest := DeleteAll(serve, s', subs[1..]);
      rest.(ops := [subs[0]] + rest.ops)
  }

  ghost predicate LeftToDelete<S>(whole: Removal<S>, serve: (S, string) -> (S, Code), s: S, subs: seq<string>,
                                  ops: seq<string>)
    requires subs != []
  {
    var rest := DeleteAll(serve, s, subs);
    whole == rest.(ops := ops + rest.ops)
  }

  lemma OneDelete<S>(whole: Removal<S>, serve: (S, string) -> (S, Code), s: S, subs: seq<string>, ops: seq<string>)
    requires subs != [] && LeftToDelete(whole, serve, s, subs, ops)
    ensures var (s', code) := serve(s, subs[0]);
            if code != ZOK || |subs| == 1 then whole == Removal(s', ops + [subs[0]], code)
            else LeftToDelete(whole, serve, s', subs[1..], ops + [subs[0]])
  {
    var (s', code) := serve(s, subs[0]);
    if code == ZOK && |subs| > 1 {
      var tail := DeleteAll(serve, s', subs[1..]).ops;
      assert ops + ([subs[0]] + tail) == (ops + [subs[0]]) + tail;
    }
  }

  /** The loop of delete_path. */
  method DeleteEach<S>(serve: (S, string) -> (S, Code), s0: S, subs: seq<string>) returns (r: Removal<S>)
    requires subs != []
    ensures r == DeleteAll(serve, s0, subs)
  {
    var s := s0;
    var ops: seq<string> := [];
    assert subs[0..] == subs;
    for i := 0 to |subs|
      invariant i < |subs| ==> LeftToDelete(DeleteAll(serve, s0, subs), serve, s, subs[i..], ops)
      invariant i == |subs| ==> DeleteAll(serve, s0, subs) == Removal(s, ops, ZOK)
    {
      OneDelete(DeleteAll(serve, s0, subs), serve, s, subs[i..], ops);
      assert subs[i..][1..] == subs[i + 1..];
      var (s', rc) := serve(s, subs[i]);
      if rc != ZOK {
        return Removal(s', ops + [subs[i]], rc);
      }
      s, ops := s', ops + [subs[i]];
    }
    return Removal(s, ops, ZOK);
  }

  /** The user data of an asynchronous deletion. */
  class DeleteChain {
    var subs: seq<string>
    var outstanding: Option<string>
    var callbacks: seq<Code>

    ghost predicate Valid()
      reads this
    {
      if outstanding.Some? then subs != [] && outstanding.value == subs[0] && callbacks == [] else |callbacks| == 1
    }

    constructor (subs: seq<string>)
      requires subs != []
      ensures Valid() && outstanding.Some? && this.subs == subs
    {
      this.subs := subs;
      callbacks, outstanding := [], Some(subs[0]);
    }

    method Completion(rc: Code)
      requires Valid() && outstanding.Some?
      modifies this
      ensures Valid() && subs == old(subs)[1..]
      ensures outstanding.None? <==> rc != ZOK || |old(subs)| == 1
      ensures outstanding.None? ==> callbacks == [rc]
    {
      subs := subs[1..];
      if rc != ZOK || subs == [] {
        callbacks := callbacks + [rc];
        outstanding := None;
        return;
      }
      outstanding := Some(subs[0]);
    }
  }

  /** The completion chain of async_delete_path does what the loop does and calls back once. */
  method AsyncDeleteEach<S>(serve: (S, string) -> (S, Code), s0: S, subs: seq<string>)
    returns (r: Removal<S>, callbacks: seq<Code>)
    requires subs != []
    ensures r == DeleteAll(serve, s0, subs)
    ensures callbacks == [r.code]
  {
    var s := s0;
    var ops: seq<string> := [];
    var chain := new DeleteChain(subs);
    ghost var whole := DeleteAll(serve, s0, subs);
    while chain.outstanding.Some?
      invariant chain.Valid()
      invariant chain.outstanding.Some? ==> LeftToDelete(whole, serve, s, chain.subs, ops)
      invariant chain.outstanding.None? ==> whole == Removal(s, ops, chain.callbacks[0])
      decreases chain.outstanding.Some?, |chain.subs|
    {
      OneDelete(whole, serve, s, chain.subs, ops);
      var op := chain.outstanding.value;
      var (s', rc) := serve(s, op);
      chain.Completion(rc);
      s, ops := s', ops + [op];
    }
    return Removal(s, ops, chain.callbacks[0]), chain.callbacks;
  }
}
