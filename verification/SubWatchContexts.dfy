/**
 * What every run of the `watch_sub_path` machine keeps about its contexts, whatever the server
 * does to the children: each context has at most one live cycle, replies precede events, a
 * completion reads the event that caused its request, and no message is for a dropped context.
 */
module SubWatchContexts {
  import opened Seqs
  import opened Zk
  import opened SubWatch

  // ---------- one context's share of the wires ----------

  function RequestsOf(q: seq<Request>, x: nat): seq<Request> {
    if q == [] then [] else (if q[0].ctx == x then [q[0]] else []) + RequestsOf(q[1..], x)
  }

  function MessagesOf(q: seq<Msg>, x: nat): seq<Msg> {
    if q == [] then [] else (if q[0].ctx == x then [q[0]] else []) + MessagesOf(q[1..], x)
  }

  lemma {:induction false} RequestsOfAppend(p: seq<Request>, q: seq<Request>, x: nat)
    ensures RequestsOf(p + q, x) == RequestsOf(p, x) + RequestsOf(q, x)
  {
    if p == [] {
      assert p + q == q;
    } else {
      assert (p + q)[0] == p[0] && (p + q)[1..] == p[1..] + q;
      RequestsOfAppend(p[1..], q, x);
      var head := if p[0].ctx == x then [p[0]] else [];
      Associates(head, RequestsOf(p[1..], x), RequestsOf(q, x));
    }
  }

  lemma {:induction false} MessagesOfAppend(p: seq<Msg>, q: seq<Msg>, x: nat)
    ensures MessagesOf(p + q, x) == MessagesOf(p, x) + MessagesOf(q, x)
  {
    if p == [] {
      assert p + q == q;
    } else {
      assert (p + q)[0] == p[0] && (p + q)[1..] == p[1..] + q;
      MessagesOfAppend(p[1..], q, x);
      var head := if p[0].ctx == x then [p[0]] else [];
      Associates(head, MessagesOf(p[1..], x), MessagesOf(q, x));
    }
  }

  /** A queued item is in its context's share, and the share holds nothing else. */
  lemma {:induction false} RequestsOfMember(q: seq<Request>, x: nat, r: Request)
    ensures r in RequestsOf(q, x) <==> r in q && r.ctx == x
  {
    if q != [] {
      RequestsOfMember(q[1..], x, r);
      assert r in q <==> r == q[0] || r in q[1..];
    }
  }

  lemma {:induction false} MessagesOfMember(q: seq<Msg>, x: nat, m: Msg)
    ensures m in MessagesOf(q, x) <==> m in q && m.ctx == x
  {
    if q != [] {
      MessagesOfMember(q[1..], x, m);
      assert m in q <==> m == q[0] || m in q[1..];
    }
  }

  lemma {:induction false} FiresOf(fired: seq<nat>, target: Target, event: Event, x: nat)
    requires Distinct(fired)
    ensures MessagesOf(Fires(fired, target, event), x) ==
            if x in fired then [Fire(x, target, event)] else []
  {
    if fired != [] {
      FiresOf(fired[1..], target, event, x);
      assert x in fired <==> x == fired[0] || x in fired[1..];
      assert fired[0] !in fired[1..];
      var fs := Fires(fired, target, event);
      assert fs[1..] == Fires(fired[1..], target, event);
    }
  }

  lemma {:induction false} NewRequestsOf(first: nat, names: seq<Name>, x: nat)
    ensures RequestsOf(NewRequests(first, names), x) ==
            if first <= x < first + |names| then [AskGet(x, names[x - first], Dummy)] else []
    decreases |names|
  {
    if names != [] {
      NewRequestsOf(first + 1, names[1..], x);
      var rs := NewRequests(first, names);
      assert rs[1..] == NewRequests(first + 1, names[1..]);
    }
  }

  // ---------- the invariant ----------

  function TargetOf(ctx: Ctx): Target {
    match ctx
    case ExistsCtx(_) => OnParent
    case ListCtx => OnChildren
    case GetCtx(name, _) => OnChild(name)
  }

  /** The request belongs to a context of its kind and was sent because of the context's last event. */
  predicate RequestFits(ctx: Ctx, r: Request) {
    match r
    case AskExists(_, cause) => ctx == ExistsCtx(cause)
    case AskList(_) => ctx == ListCtx
    case AskGet(_, name, cause) => ctx == GetCtx(name, cause)
  }

  predicate ReplyFits(ctx: Ctx, m: Msg) {
    match m
    case ExistsReply(_, _, cause) => ctx == ExistsCtx(cause)
    case ListReply(_, names) => ctx == ListCtx && (names.Some? ==> Distinct(names.value))
    case GetReply(_, name, _, cause) => ctx == GetCtx(name, cause)
    case Fire(_, _, _) => false
  }

  /** The events the server sends to a watch on the target while the parent is never deleted. */
  predicate Possible(target: Target, event: Event) {
    match target
    case OnParent => event == Created || event == Changed
    case OnChildren => event == Child
    case OnChild(_) => event == Changed || event == Deleted
  }

  predicate FireFits(ctx: Ctx, m: Msg) {
    m.Fire? && m.target == TargetOf(ctx) && Possible(m.target, m.event)
  }

  /** The six states of a context's cycle: dropped or dead, requested, replied, replied and fired
      again, armed, fired. */
  predicate Cycle(ctx: Ctx, rs: seq<Request>, armed: bool, ms: seq<Msg>) {
    || (rs == [] && ms == [])
    || (|rs| == 1 && ms == [] && !armed && RequestFits(ctx, rs[0]))
    || (rs == [] && |ms| == 1 && ReplyFits(ctx, ms[0]))
    || (rs == [] && |ms| == 1 && !armed && FireFits(ctx, ms[0]))
    || (rs == [] && |ms| == 2 && !armed && ReplyFits(ctx, ms[0]) && FireFits(ctx, ms[1]))
  }

  function Get<V>(m: map<nat, V>, x: nat): Option<V> {
    if x in m then Some(m[x]) else None
  }

  predicate Settled(ctx: Ctx, armed: Option<Target>, rs: seq<Request>, ms: seq<Msg>) {
    && Cycle(ctx, rs, armed.Some?, ms)
    && (armed.Some? ==> armed.value == TargetOf(ctx))
    && (ctx.GetCtx? ==> ctx.eve == Dummy || ctx.eve == Changed)
    && (ctx.ExistsCtx? ==> ctx.eve != Child && ctx.eve != Deleted)
  }

  /** A context is in one of its cycle's states; a dropped or future one has nothing anywhere. */
  predicate Fits(ctx: Option<Ctx>, armed: Option<Target>, rs: seq<Request>, ms: seq<Msg>) {
    if ctx.Some? then Settled(ctx.value, armed, rs, ms) else rs == [] && ms == [] && armed.None?
  }

  predicate ContextOk(s: State, x: nat) {
    && (x in s.client.contexts ==> x < s.client.next)
    && Fits(Get(s.client.contexts, x), Get(s.server.armed, x),
            RequestsOf(s.requests, x), MessagesOf(s.inbox, x))
  }

  ghost predicate ContextsOk(s: State) {
    forall x: nat :: ContextOk(s, x)
  }

  lemma InitContexts(s: State)
    requires Init(s)
    ensures ContextsOk(s)
  {
    forall x: nat ensures ContextOk(s, x) {
      assert RequestsOf(s.requests[1..], x) == [];
    }
  }

  // ---------- preservation ----------

  lemma TriggerKeepsContexts(s: State, target: Target, event: Event, fired: seq<nat>)
    requires ContextsOk(s) && AllArmed(s.server.armed, target, fired)
    requires Possible(target, event)
    ensures ContextsOk(Trigger(s, target, event, fired))
  {
    var t := Trigger(s, target, event, fired);
    forall x: nat ensures ContextOk(t, x) {
      assert ContextOk(s, x);
      MessagesOfAppend(s.inbox, Fires(fired, target, event), x);
      FiresOf(fired, target, event, x);
    }
  }

  /** One context's share after a request is served. */
  lemma ServeShare(s: State, order: seq<Name>, x: nat)
    requires ContextsOk(s) && Enabled(s, Serve(order))
    ensures var t := Apply(s, Serve(order));
            var reply := Answer(s.server, s.requests[0], order).0;
            if x == s.requests[0].ctx then
              && reply.ctx == x && RequestsOf(s.requests, x) == [s.requests[0]] && RequestsOf(t.requests, x) == []
              && MessagesOf(s.inbox, x) == [] && MessagesOf(t.inbox, x) == [reply]
            else
              && RequestsOf(t.requests, x) == RequestsOf(s.requests, x)
              && MessagesOf(t.inbox, x) == MessagesOf(s.inbox, x)
              && Get(t.server.armed, x) == Get(s.server.armed, x)
  {
    var reply := Answer(s.server, s.requests[0], order).0;
    assert ContextOk(s, x);
    MessagesOfAppend(s.inbox, [reply], x);
    assert [reply][1..] == [];
  }

  lemma ServeKeepsContexts(s: State, order: seq<Name>)
    requires ContextsOk(s) && Enabled(s, Serve(order))
    ensures ContextsOk(Apply(s, Serve(order)))
  {
    var t := Apply(s, Serve(order));
    forall x: nat ensures ContextOk(t, x) {
      assert ContextOk(s, x);
      ServeShare(s, order, x);
    }
  }

  /** The message at the head of the inbox is its context's next one. */
  lemma HeadFits(s: State)
    requires ContextsOk(s) && s.inbox != []
    ensures var m := s.inbox[0];
            && m.ctx in s.client.contexts
            && RequestsOf(s.requests, m.ctx) == []
            && (ReplyFits(s.client.contexts[m.ctx], m) || FireFits(s.client.contexts[m.ctx], m))
            && MessagesOf(s.inbox[1..], m.ctx) == MessagesOf(s.inbox, m.ctx)[1..]
            && (m.Fire? ==> MessagesOf(s.inbox[1..], m.ctx) == [] && m.ctx !in s.server.armed)
  {
    assert ContextOk(s, s.inbox[0].ctx);
  }

  /** Delivering a reply leaves every other context's share alone and uses up its own reply. */
  lemma DeliverReplyKeepsContexts(s: State)
    requires ContextsOk(s) && s.inbox != []
    requires s.inbox[0].GetReply? || s.inbox[0].ExistsReply?
    ensures ContextsOk(Apply(s, Deliver))
  {
    if Handle(s.client, s.inbox[0]).1 == [] {
      SilentReply(s);
      forall x: nat { SilentContext(s, x); }
    } else {
      DeliverParentFoundKeepsContexts(s);
    }
  }

  lemma SilentReply(s: State)
    requires s.inbox != [] && (s.inbox[0].GetReply? || s.inbox[0].ExistsReply?)
    requires Handle(s.client, s.inbox[0]).1 == []
    ensures var c := Handle(s.client, s.inbox[0]).0; c.contexts == s.client.contexts && c.next == s.client.next
  {}

  /** The reply that makes the client open the listing's context. */
  lemma DeliverParentFoundKeepsContexts(s: State)
    requires ContextsOk(s) && s.inbox != [] && s.inbox[0].ExistsReply? && Handle(s.client, s.inbox[0]).1 != []
    ensures ContextsOk(Apply(s, Deliver))
  {
    HeadFits(s);
    forall x: nat ensures ContextOk(Apply(s, Deliver), x) {
      assert ContextOk(s, x);
      ParentFoundShare(s, x);
    }
  }

  lemma ParentFoundShare(s: State, x: nat)
    requires s.inbox != [] && s.inbox[0].ExistsReply? && Handle(s.client, s.inbox[0]).1 != []
    requires s.inbox[0].ctx in s.client.contexts && s.client.contexts[s.inbox[0].ctx].ExistsCtx?
    ensures var t, next := Apply(s, Deliver), s.client.next;
            && t.client.next == next + 1 && t.server == s.server
            && MessagesOf(t.inbox, x) ==
               (if x == s.inbox[0].ctx then MessagesOf(s.inbox, x)[1..] else MessagesOf(s.inbox, x))
            && Get(t.client.contexts, x) == (if x == next then Some(ListCtx) else Get(s.client.contexts, x))
            && RequestsOf(t.requests, x) == RequestsOf(s.requests, x) + if x == next then [AskList(next)] else []
  {
    OneMore(s.requests, [AskList(s.client.next)], x);
  }

  /** Appending at most one request. */
  lemma OneMore(q: seq<Request>, out: seq<Request>, x: nat)
    requires |out| <= 1
    ensures RequestsOf(q + out, x) == RequestsOf(q, x) + if |out| == 1 && out[0].ctx == x then out else []
  {
    RequestsOfAppend(q, out, x);
    if |out| == 1 { assert out[1..] == []; }
  }

  lemma DeliverListingKeepsContexts(s: State)
    requires ContextsOk(s) && s.inbox != [] && s.inbox[0].ListReply?
    ensures ContextsOk(Apply(s, Deliver))
  {
    forall x: nat ensures ContextOk(Apply(s, Deliver), x) {
      if s.inbox[0].names.Some? { ListingContext(s, x); } else { SilentContext(s, x); }
    }
  }

  lemma ListingContext(s: State, x: nat)
    requires ContextsOk(s) && s.inbox != [] && s.inbox[0].ListReply? && s.inbox[0].names.Some?
    ensures ContextOk(Apply(s, Deliver), x)
  {
    HeadFits(s);
    assert ContextOk(s, x);
    ListingShare(s, x);
  }

  /** A reply that makes the client send nothing is used up. */
  lemma SilentContext(s: State, x: nat)
    requires ContextsOk(s) && s.inbox != [] && !s.inbox[0].Fire?
    requires var (c, out) := Handle(s.client, s.inbox[0]);
             out == [] && c.contexts == s.client.contexts && c.next == s.client.next
    ensures ContextOk(Apply(s, Deliver), x)
  {
    HeadFits(s);
    assert ContextOk(s, x);
    assert s.requests + [] == s.requests;
  }

  lemma ListingShare(s: State, x: nat)
    requires s.inbox != [] && s.inbox[0].ListReply? && s.inbox[0].names.Some?
    requires s.inbox[0].ctx in s.client.contexts && s.client.contexts[s.inbox[0].ctx].ListCtx?
    ensures var t, c := Apply(s, Deliver), s.client;
            var unseen := Fresh(s.inbox[0].names.value, Known(c.cache));
            && t.client.next == c.next + |unseen| && t.server == s.server
            && MessagesOf(t.inbox, x) ==
               (if x == s.inbox[0].ctx then MessagesOf(s.inbox, x)[1..] else MessagesOf(s.inbox, x))
            && (if c.next <= x < c.next + |unseen| then
                  && Get(t.client.contexts, x) == Some(GetCtx(unseen[x - c.next], Dummy))
                  && RequestsOf(t.requests, x) == RequestsOf(s.requests, x) + [AskGet(x, unseen[x - c.next], Dummy)]
                else
                  && Get(t.client.contexts, x) == Get(c.contexts, x)
                  && RequestsOf(t.requests, x) == RequestsOf(s.requests, x))
  {
    ListingOpens(s.client, s.requests, Fresh(s.inbox[0].names.value, Known(s.client.cache)), x);
  }

  /** A listing opens one requested context per new name and touches no older context. */
  lemma ListingOpens(c: Client, q: seq<Request>, unseen: seq<Name>, x: nat)
    ensures var contexts := c.contexts + NewContexts(c.next, unseen);
            var requests := q + NewRequests(c.next, unseen);
            if c.next <= x < c.next + |unseen| then
              && Get(contexts, x) == Some(GetCtx(unseen[x - c.next], Dummy))
              && RequestsOf(requests, x) == RequestsOf(q, x) + [AskGet(x, unseen[x - c.next], Dummy)]
            else
              Get(contexts, x) == Get(c.contexts, x) && RequestsOf(requests, x) == RequestsOf(q, x)
  {
    RequestsOfAppend(q, NewRequests(c.next, unseen), x);
    NewRequestsOf(c.next, unseen, x);
  }

  lemma DeliverFireKeepsContexts(s: State)
    requires ContextsOk(s) && s.inbox != [] && s.inbox[0].Fire?
    ensures ContextsOk(Apply(s, Deliver))
  {
    var t := Apply(s, Deliver);
    var x0 := s.inbox[0].ctx;
    HeadFits(s);
    forall x: nat ensures ContextOk(t, x) {
      assert ContextOk(s, x);
      if x == x0 { DeliverFireOwn(s); } else { DeliverFireOther(s, x); }
    }
  }

  /** An event drops its context or turns into the next request. */
  lemma DeliverFireOwn(s: State)
    requires ContextsOk(s) && s.inbox != [] && s.inbox[0].Fire?
    ensures ContextOk(Apply(s, Deliver), s.inbox[0].ctx)
  {
    var m := s.inbox[0];
    HeadFits(s);
    assert ContextOk(s, m.ctx);
    OneMore(s.requests, Handle(s.client, m).1, m.ctx);
  }

  lemma DeliverFireOther(s: State, x: nat)
    requires s.inbox != [] && s.inbox[0].Fire? && s.inbox[0].ctx in s.client.contexts && x != s.inbox[0].ctx
    ensures var t := Apply(s, Deliver);
            && Get(t.client.contexts, x) == Get(s.client.contexts, x) && t.server == s.server
            && t.client.next == s.client.next
            && RequestsOf(t.requests, x) == RequestsOf(s.requests, x)
            && MessagesOf(t.inbox, x) == MessagesOf(s.inbox, x)
  {
    OneMore(s.requests, Handle(s.client, s.inbox[0]).1, x);
  }

  lemma StepKeepsContexts(s: State, step: Step)
    requires ContextsOk(s) && Enabled(s, step)
    ensures ContextsOk(Apply(s, step))
  {
    var sv := s.server;
    match step
    case CreateParent(fired) =>
      var s1 := s.(server := sv.(parent := true));
      assert forall x: nat :: ContextOk(s, x) ==> ContextOk(s1, x);
      TriggerKeepsContexts(s1, OnParent, Created, fired);
    case SetParent(fired) => TriggerKeepsContexts(s, OnParent, Changed, fired);
    case CreateChild(name, data, listFired) =>
      var s1 := s.(server := sv.(children := sv.children[name := data]));
      assert forall x: nat :: ContextOk(s, x) ==> ContextOk(s1, x);
      TriggerKeepsContexts(s1, OnChildren, Child, listFired);
    case SetChild(name, data, fired) =>
      var s1 := s.(server := sv.(children := sv.children[name := data]));
      assert forall x: nat :: ContextOk(s, x) ==> ContextOk(s1, x);
      TriggerKeepsContexts(s1, OnChild(name), Changed, fired);
    case DeleteChild(name, fired, listFired) =>
      var s1 := s.(server := sv.(children := sv.children - {name}));
      assert forall x: nat :: ContextOk(s, x) ==> ContextOk(s1, x);
      TriggerKeepsContexts(s1, OnChild(name), Deleted, fired);
      TriggerKeepsContexts(Trigger(s1, OnChild(name), Deleted, fired), OnChildren, Child, listFired);
    case Serve(order) => ServeKeepsContexts(s, order);
    case Deliver =>
      match s.inbox[0] {
        case Fire(_, _, _) => DeliverFireKeepsContexts(s);
        case ListReply(_, _) => DeliverListingKeepsContexts(s);
        case _ => DeliverReplyKeepsContexts(s);
      }
  }

  lemma {:induction false} RunKeepsContexts(s: State, steps: seq<Step>)
    requires ContextsOk(s) && IsRun(s, steps)
    ensures ContextsOk(End(s, steps))
    decreases |steps|
  {
    if steps != [] {
      StepKeepsContexts(s, steps[0]);
      RunKeepsContexts(Apply(s, steps[0]), steps[1..]);
    }
  }

  // ---------- what it means for every run ----------

  function FireCount(ms: seq<Msg>): nat {
    if ms == [] then 0 else (if ms[0].Fire? then 1 else 0) + FireCount(ms[1..])
  }

  /** In every reachable state a context has at most one live cycle - an outstanding request, an
      armed watch or an undelivered event - and its reply comes before its next event. */
  lemma OneLiveCycle(s: State, steps: seq<Step>, x: nat)
    requires Init(s) && IsRun(s, steps)
    ensures var t := End(s, steps);
            var ms := MessagesOf(t.inbox, x);
            && |RequestsOf(t.requests, x)| + (if x in t.server.armed then 1 else 0) + FireCount(ms) <= 1
            && (forall i :: 0 < i < |ms| ==> ms[i].Fire?)
  {
    InitContexts(s);
    RunKeepsContexts(s, steps);
    assert ContextOk(End(s, steps), x);
    var ms := MessagesOf(End(s, steps).inbox, x);
    assert |ms| == 1 ==> ms[1..] == [];
    assert |ms| == 2 ==> ms[1..] == [ms[1]] && [ms[1]][1..] == [];
  }

  /** The next message is for a context that is still in the table, of the kind that sent the
      request, and a completion reads exactly the event that caused its request. */
  lemma NoDangling(s: State, steps: seq<Step>)
    requires Init(s) && IsRun(s, steps)
    requires End(s, steps).inbox != []
    ensures var t := End(s, steps);
            var m := t.inbox[0];
            && m.ctx in t.client.contexts
            && var ctx := t.client.contexts[m.ctx];
            match m {
              case ExistsReply(_, _, cause) => ctx == ExistsCtx(cause)
              case ListReply(_, _) => ctx == ListCtx
              case GetReply(_, name, _, cause) => ctx == GetCtx(name, cause)
              case Fire(_, target, _) => target == TargetOf(ctx)
            }
  {
    InitContexts(s);
    RunKeepsContexts(s, steps);
    HeadFits(End(s, steps));
  }

  /** A context that has been dropped never comes back and is never mentioned again. */
  lemma {:induction false} DroppedForGood(s: State, steps: seq<Step>, x: nat)
    requires ContextsOk(s) && IsRun(s, steps)
    requires x < s.client.next && x !in s.client.contexts
    ensures var t := End(s, steps);
            && x !in t.client.contexts && x !in t.server.armed
            && (forall r :: r in t.requests ==> r.ctx != x)
            && (forall m :: m in t.inbox ==> m.ctx != x)
    decreases |steps|
  {
    assert ContextOk(s, x);
    if steps == [] {
      forall r | r in s.requests ensures r.ctx != x { RequestsOfMember(s.requests, x, r); }
      forall m | m in s.inbox ensures m.ctx != x { MessagesOfMember(s.inbox, x, m); }
    } else {
      StepKeepsContexts(s, steps[0]);
      StaysDropped(s, steps[0], x);
      DroppedForGood(Apply(s, steps[0]), steps[1..], x);
    }
  }

  lemma StaysDropped(s: State, step: Step, x: nat)
    requires ContextsOk(s) && Enabled(s, step)
    requires x < s.client.next && x !in s.client.contexts
    ensures var t := Apply(s, step); x < t.client.next && x !in t.client.contexts
  {
    if step.Deliver? {
      HeadFits(s);
      assert s.inbox[0].ctx != x;
    }
  }
}
