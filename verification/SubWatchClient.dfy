/**
 * The client side of `watch_sub_path` as the object it is in the original: callbacks that update
 * the context table, the cached child set and the outgoing requests in place.  Each callback is
 * proved to do exactly what the step machine's `Handle` says, so every theorem about the machine
 * is a theorem about this object.
 */
module SubWatchClient {
  import opened Seqs
  import opened Zk
  import opened SubWatch

  lemma {:induction false} FreshSnoc(names: seq<Name>, known: set<Name>, c: Name)
    ensures Fresh(names + [c], known) == Fresh(names, known) + if c in known then [] else [c]
  {
    if names == [] {
      assert names + [c] == [c] && [c][1..] == [];
    } else {
      assert (names + [c])[1..] == names[1..] + [c];
      FreshSnoc(names[1..], known, c);
    }
  }

  lemma {:induction false} NewRequestsSnoc(first: nat, names: seq<Name>, c: Name)
    ensures NewRequests(first, names + [c]) == NewRequests(first, names) + [AskGet(first + |names|, c, Dummy)]
    decreases |names|
  {
    if names == [] {
      assert names + [c] == [c] && [c][1..] == [];
    } else {
      assert (names + [c])[1..] == names[1..] + [c];
      NewRequestsSnoc(first + 1, names[1..], c);
    }
  }

  lemma NewContextsSnoc(base: map<nat, Ctx>, first: nat, names: seq<Name>, c: Name)
    ensures base + NewContexts(first, names + [c]) ==
            (base + NewContexts(first, names))[first + |names| := GetCtx(c, Dummy)]
  {
    var a, b := NewContexts(first, names + [c]), NewContexts(first, names)[first + |names| := GetCtx(c, Dummy)];
    forall x: nat ensures x in a <==> x in b {}
    forall x: nat | x in a ensures a[x] == b[x] {
      assert (names + [c])[x - first] == if x < first + |names| then names[x - first] else c;
    }
    assert a == b;
  }

  /** What has been opened so far: the state after monitoring `unseen`. */
  predicate Opened(first: nat, contexts0: map<nat, Ctx>, outbox0: seq<Request>, unseen: seq<Name>,
                   next: nat, contexts: map<nat, Ctx>, outbox: seq<Request>)
  {
    && next == first + |unseen|
    && contexts == contexts0 + NewContexts(first, unseen)
    && outbox == outbox0 + NewRequests(first, unseen)
  }

  lemma OpenedSnoc(first: nat, contexts0: map<nat, Ctx>, outbox0: seq<Request>, unseen: seq<Name>,
                   next: nat, contexts: map<nat, Ctx>, outbox: seq<Request>, c: Name)
    requires Opened(first, contexts0, outbox0, unseen, next, contexts, outbox)
    ensures Opened(first, contexts0, outbox0, unseen + [c], next + 1,
                   contexts[next := GetCtx(c, Dummy)], outbox + [AskGet(next, c, Dummy)])
  {
    NewContextsSnoc(contexts0, first, unseen, c);
    NewRequestsSnoc(first, unseen, c);
    Associates(outbox0, NewRequests(first, unseen), [AskGet(next, c, Dummy)]);
  }

  class SubMonitor {
    var next: nat
    var contexts: map<nat, Ctx>
    var lastSubPath: Option<set<Name>>
    var log: seq<Note>
    var outbox: seq<Request>

    function Model(): Client
      reads this
    {
      Client(next, contexts, lastSubPath, log)
    }

    /** watch_sub_path: open the exists context and send its first check. */
    constructor ()
      ensures Model() == Client(1, map[0 := ExistsCtx(Dummy)], None, [])
      ensures outbox == [AskExists(0, Dummy)]
    {
      next, contexts, lastSubPath, log := 1, map[0 := ExistsCtx(Dummy)], None, [];
      outbox := [AskExists(0, Dummy)];
    }

    /** Opens a get context for a child and sends its first read. */
    method Monitor(name: Name)
      modifies this`next, this`contexts, this`outbox
      ensures next == old(next) + 1
      ensures contexts == old(contexts)[old(next) := GetCtx(name, Dummy)]
      ensures outbox == old(outbox) + [AskGet(old(next), name, Dummy)]
    {
      contexts := contexts[next := GetCtx(name, Dummy)];
      outbox := outbox + [AskGet(next, name, Dummy)];
      next := next + 1;
    }

    /** Monitors the names outside `known`, in order. */
    method MonitorNew(names: seq<Name>, known: set<Name>)
      modifies this`next, this`contexts, this`outbox
      ensures Opened(old(next), old(contexts), old(outbox), Fresh(names, known), next, contexts, outbox)
    {
      ghost var unseen: seq<Name> := [];
      for i := 0 to |names|
        invariant unseen == Fresh(names[..i], known)
        invariant Opened(old(next), old(contexts), old(outbox), unseen, next, contexts, outbox)
      {
        assert names[..i + 1] == names[..i] + [names[i]];
        FreshSnoc(names[..i], known, names[i]);
        if names[i] in known {
          continue;
        }
        OpenedSnoc(old(next), old(contexts), old(outbox), unseen, next, contexts, outbox, names[i]);
        Monitor(names[i]);
        unseen := unseen + [names[i]];
      }
      assert names[..|names|] == names;
    }

    /** The completion of a successful listing. */
    method OnListing(names: seq<Name>)
      modifies this
      ensures var (c, out) := HandleListing(old(Model()), names);
              Model() == c && outbox == old(outbox) + out
    {
      if lastSubPath.None? {
        MonitorNew(names, {});
      } else {
        MonitorNew(names, lastSubPath.value);
      }
      var subPathsSet := {};
      for i := 0 to |names|
        invariant subPathsSet == Elements(names[..i])
      {
        assert names[..i + 1] == names[..i] + [names[i]];
        subPathsSet := subPathsSet + {names[i]};
      }
      assert names[..|names|] == names;
      lastSubPath := Some(subPathsSet);
    }

    /** A watch function: re-arm, or drop the context of a deleted node. */
    method OnFire(x: nat, event: Event)
      requires x in contexts
      modifies this
      ensures var (c, out) := HandleFire(old(Model()), x, old(contexts)[x], event);
              Model() == c && outbox == old(outbox) + out
    {
      match contexts[x] {
        case ExistsCtx(_) =>
          contexts := contexts[x := ExistsCtx(event)];
          outbox := outbox + [AskExists(x, event)];
        case ListCtx =>
          if event == Deleted {
            contexts := contexts - {x};
          } else {
            outbox := outbox + [AskList(x)];
          }
        case GetCtx(name, _) =>
          if event == Deleted {
            log := log + [DelNote(name)];
            contexts := contexts - {x};
          } else {
            contexts := contexts[x := GetCtx(name, event)];
            outbox := outbox + [AskGet(x, name, event)];
          }
      }
    }

    /** One message from the wire: what `Handle` computes is what the object becomes. */
    method OnMessage(m: Msg)
      modifies this
      ensures var (c, out) := Handle(old(Model()), m);
              Model() == c && outbox == old(outbox) + out
    {
      if m.ctx !in contexts {
        return;
      }
      var ctx := contexts[m.ctx];
      match m {
        case ExistsReply(_, ok, _) =>
          if ctx.ExistsCtx? && ok && (ctx.eve == Dummy || ctx.eve == Created) {
            contexts := contexts[next := ListCtx];
            outbox := outbox + [AskList(next)];
            next := next + 1;
          }
        case ListReply(_, names) =>
          if ctx.ListCtx? && names.Some? {
            OnListing(names.value);
          }
        case GetReply(_, _, data, _) =>
          if ctx.GetCtx? {
            if data.None? && ctx.eve == Deleted {
              log := log + [DelNote(ctx.name)];
            } else if data.Some? {
              log := log + [ChangedNote(ctx.name, data.value)];
            }
          }
        case Fire(x, _, event) => OnFire(x, event);
      }
    }
  }
}
