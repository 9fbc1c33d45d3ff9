/**
 * The listing half of `watch_sub_path`, for runs in which the parent may be absent at first but is
 * never deleted and the children are created, deleted and re-created at will.
 */
module SubWatchListing {
  import opened Seqs
  import opened Zk
  import opened SubWatch
  import opened SubWatchContexts

  /** The cached child set once every listing now in the queue has been handled. */
  function Listed(cache: Option<set<Name>>, q: seq<Msg>): Option<set<Name>>
    decreases |q|
  {
    if q == [] then cache
    else if q[0].ListReply? && q[0].names.Some? then Listed(Some(Elements(q[0].names.value)), q[1..])
    else Listed(cache, q[1..])
  }

  lemma {:induction false} ListedAppend(cache: Option<set<Name>>, p: seq<Msg>, q: seq<Msg>)
    ensures Listed(cache, p + q) == Listed(Listed(cache, p), q)
    decreases |p|
  {
    if p == [] {
      assert p + q == q;
    } else {
      assert (p + q)[1..] == p[1..] + q;
      var c := if p[0].ListReply? && p[0].names.Some? then Some(Elements(p[0].names.value)) else cache;
      ListedAppend(c, p[1..], q);
    }
  }

  lemma {:induction false} ListedNone(cache: Option<set<Name>>, q: seq<Msg>)
    requires forall m :: m in q ==> !m.ListReply?
    ensures Listed(cache, q) == cache
  {
    if q != [] {
      assert q[0] in q;
      ListedNone(cache, q[1..]);
    }
  }

  lemma {:induction false} FiresAreFires(fired: seq<nat>, target: Target, event: Event)
    ensures forall m :: m in Fires(fired, target, event) ==>
                          m.Fire? && m.target == target && m.event == event && m.ctx in fired
  {
    if fired != [] { FiresAreFires(fired[1..], target, event); }
  }

  lemma TriggerKeepsListed(s: State, target: Target, event: Event, fired: seq<nat>)
    ensures Listed(s.client.cache, Trigger(s, target, event, fired).inbox) == Listed(s.client.cache, s.inbox)
  {
    FiresAreFires(fired, target, event);
    ListedAppend(s.client.cache, s.inbox, Fires(fired, target, event));
    ListedNone(Listed(s.client.cache, s.inbox), Fires(fired, target, event));
  }

  // ---------- the exists context starts exactly one listing ----------

  predicate Starts(e: Event) { e == Dummy || e == Created }

  /** The exists context's cycle will still start the listing. */
  predicate WillList(rs: seq<Request>, ms: seq<Msg>) {
    || (rs != [] && rs[0].AskExists? && Starts(rs[0].cause))
    || (ms != [] && ms[0].ExistsReply? && ms[0].ok && Starts(ms[0].cause))
    || (ms != [] && ms[|ms| - 1].Fire? && ms[|ms| - 1].event == Created)
  }

  ghost predicate HasLister(c: Client) {
    exists x :: x in c.contexts && c.contexts[x].ListCtx?
  }

  predicate WaitsForParent(armed: bool, rs: seq<Request>, ms: seq<Msg>) {
    || (rs == [AskExists(0, Dummy)] && ms == [])
    || (armed && rs == [] && (ms == [] || ms == [ExistsReply(0, false, Dummy)]))
  }

  /** One exists context, at most one listing context. */
  ghost predicate OneOfAKind(c: Client) {
    && 0 in c.contexts && c.contexts[0].ExistsCtx?
    && (forall x :: x in c.contexts && c.contexts[x].ExistsCtx? ==> x == 0)
    && (forall x, y :: x in c.contexts && y in c.contexts && c.contexts[x].ListCtx? && c.contexts[y].ListCtx? ==>
          x == y)
  }

  ghost predicate ExistsOk(s: State) {
    var c, rs, ms := s.client, RequestsOf(s.requests, 0), MessagesOf(s.inbox, 0);
    && OneOfAKind(c)
    && (!s.server.parent ==> s.server.children == map[] && !HasLister(c) && WaitsForParent(0 in s.server.armed, rs, ms))
    && (s.server.parent ==> (WillList(rs, ms) <==> !HasLister(c)))
    && !(|ms| == 2 && ms[0].ExistsReply? && ms[0].ok && ms[1].Fire? && ms[1].event == Created)
  }

  /** The lister is in flight, or armed with the queue about to bring the cache up to date. */
  predicate ListerOk(s: State, x: nat) {
    var rs, ms := RequestsOf(s.requests, x), MessagesOf(s.inbox, x);
    && (rs != [] || x in s.server.armed || (ms != [] && ms[|ms| - 1].Fire?))
    && (ms != [] && ms[0].ListReply? ==> ms[0].names.Some?)
    && (x in s.server.armed ==> Listed(s.client.cache, s.inbox) == Some(s.server.children.Keys))
  }

  ghost predicate ListingOk(s: State) {
    && ContextsOk(s) && ExistsOk(s)
    && (forall x :: x in s.client.contexts && s.client.contexts[x].ListCtx? ==> ListerOk(s, x))
  }

  lemma InitListing(s: State)
    requires Init(s)
    ensures ListingOk(s)
  {
    InitContexts(s);
    assert RequestsOf(s.requests[1..], 0) == [];
  }

  // ---------- preservation ----------

  /** One context's share after a trigger. */
  lemma TriggerShare(s: State, target: Target, event: Event, fired: seq<nat>, x: nat)
    requires AllArmed(s.server.armed, target, fired)
    ensures var t := Trigger(s, target, event, fired);
            if x in s.server.armed && s.server.armed[x] == target then
              x !in t.server.armed && MessagesOf(t.inbox, x) == MessagesOf(s.inbox, x) + [Fire(x, target, event)]
            else
              Get(t.server.armed, x) == Get(s.server.armed, x) && MessagesOf(t.inbox, x) == MessagesOf(s.inbox, x)
  {
    MessagesOfAppend(s.inbox, Fires(fired, target, event), x);
    FiresOf(fired, target, event, x);
  }

  lemma CreateParentKeepsListing(s: State, fired: seq<nat>)
    requires ListingOk(s) && Enabled(s, CreateParent(fired))
    ensures ListingOk(Apply(s, CreateParent(fired)))
  {
    StepKeepsContexts(s, CreateParent(fired));
    assert ContextOk(s, 0);
    TriggerShare(s.(server := s.server.(parent := true)), OnParent, Created, fired, 0);
  }

  lemma SetParentKeepsListing(s: State, fired: seq<nat>)
    requires ListingOk(s) && Enabled(s, SetParent(fired))
    ensures ListingOk(Apply(s, SetParent(fired)))
  {
    StepKeepsContexts(s, SetParent(fired));
    assert ContextOk(s, 0);
    TriggerShare(s, OnParent, Changed, fired, 0);
    TriggerKeepsListed(s, OnParent, Changed, fired);
    forall x | x in s.client.contexts && s.client.contexts[x].ListCtx?
      ensures ListerOk(Apply(s, SetParent(fired)), x)
    {
      assert ContextOk(s, x);
      TriggerShare(s, OnParent, Changed, fired, x);
    }
  }

  /** Data events on a child do not concern the exists context or the lister. */
  lemma ChildTriggerKeepsListing(s: State, name: Name, event: Event, fired: seq<nat>)
    requires ListingOk(s) && AllArmed(s.server.armed, OnChild(name), fired)
    requires Possible(OnChild(name), event)
    ensures ListingOk(Trigger(s, OnChild(name), event, fired))
  {
    TriggerKeepsContexts(s, OnChild(name), event, fired);
    TriggerKeepsListed(s, OnChild(name), event, fired);
    assert ContextOk(s, 0);
    TriggerShare(s, OnChild(name), event, fired, 0);
    forall x | x in s.client.contexts && s.client.contexts[x].ListCtx?
      ensures ListerOk(Trigger(s, OnChild(name), event, fired), x)
    {
      assert ContextOk(s, x);
      TriggerShare(s, OnChild(name), event, fired, x);
    }
  }

  /** Changing the children and then firing the child watches leaves no lister armed. */
  lemma ChildrenChangeKeepsListing(s: State, children: map<Name, Data>, fired: seq<nat>)
    requires ListingOk(s) && s.server.parent && AllArmed(s.server.armed, OnChildren, fired)
    ensures ListingOk(Trigger(s.(server := s.server.(children := children)), OnChildren, Child, fired))
  {
    var s1 := s.(server := s.server.(children := children));
    var t := Trigger(s1, OnChildren, Child, fired);
    assert ContextsOk(s1) by { assert forall x: nat :: ContextOk(s, x) ==> ContextOk(s1, x); }
    TriggerKeepsContexts(s1, OnChildren, Child, fired);
    assert ContextOk(s, 0);
    TriggerShare(s1, OnChildren, Child, fired, 0);
    forall x | x in s.client.contexts && s.client.contexts[x].ListCtx? ensures ListerOk(t, x) {
      assert ContextOk(s, x);
      TriggerShare(s1, OnChildren, Child, fired, x);
    }
  }

  lemma ServeKeepsExists(s: State, order: seq<Name>)
    requires ListingOk(s) && Enabled(s, Serve(order))
    ensures ExistsOk(Apply(s, Serve(order)))
  {
    assert ContextOk(s, 0);
    ServeShare(s, order, 0);
  }

  lemma ServeKeepsListing(s: State, order: seq<Name>)
    requires ListingOk(s) && Enabled(s, Serve(order))
    ensures ListingOk(Apply(s, Serve(order)))
  {
    var t := Apply(s, Serve(order));
    StepKeepsContexts(s, Serve(order));
    ServeKeepsExists(s, order);
    forall x | x in s.client.contexts && s.client.contexts[x].ListCtx? ensures ListerOk(t, x) {
      ServeKeepsLister(s, order, x);
    }
  }

  lemma ServeKeepsLister(s: State, order: seq<Name>, x: nat)
    requires ListingOk(s) && Enabled(s, Serve(order)) && x in s.client.contexts && s.client.contexts[x].ListCtx?
    ensures ListerOk(Apply(s, Serve(order)), x)
  {
    var reply := Answer(s.server, s.requests[0], order).0;
    assert ContextOk(s, x) && ListerOk(s, x) && ContextOk(s, reply.ctx);
    ServeShare(s, order, x);
    ServeShare(s, order, reply.ctx);
    ListedAppend(s.client.cache, s.inbox, [reply]);
    assert [reply][1..] == [];
  }

  lemma DeliverKeepsListing(s: State)
    requires ListingOk(s) && Enabled(s, Deliver)
    ensures ListingOk(Apply(s, Deliver))
  {
    var t := Apply(s, Deliver);
    StepKeepsContexts(s, Deliver);
    HeadFits(s);
    DeliverKeepsExists(s);
    forall x | x in t.client.contexts && t.client.contexts[x].ListCtx? ensures ListerOk(t, x) {
      DeliverKeepsLister(s, x);
    }
  }

  /** Only a listing replaces the cached set. */
  function CacheAfter(cache: Option<set<Name>>, m: Msg): Option<set<Name>> {
    if m.ListReply? && m.names.Some? then Some(Elements(m.names.value)) else cache
  }

  lemma DeliverCache(s: State)
    requires ContextsOk(s) && s.inbox != []
    ensures Apply(s, Deliver).client.cache == CacheAfter(s.client.cache, s.inbox[0])
  {
    HeadFits(s);
  }

  lemma ListedHead(cache: Option<set<Name>>, q: seq<Msg>)
    requires q != []
    ensures Listed(cache, q) == Listed(CacheAfter(cache, q[0]), q[1..])
  {}

  /** A context's requests after the head message is handled. */
  lemma DeliverShare(s: State, x: nat)
    requires ContextsOk(s) && Enabled(s, Deliver)
    requires x < s.client.next
    ensures var t := Apply(s, Deliver);
            var out := Handle(s.client, s.inbox[0]).1;
            RequestsOf(t.requests, x) ==
            RequestsOf(s.requests, x) + if |out| == 1 && out[0].ctx == x then out else []
  {
    var m := s.inbox[0];
    HeadFits(s);
    if m.ListReply? && m.names.Some? {
      ListingOpens(s.client, s.requests, Fresh(m.names.value, Known(s.client.cache)), x);
    } else {
      OneMore(s.requests, Handle(s.client, m).1, x);
    }
  }

  predicate StartsListing(m: Msg) {
    m.ExistsReply? && m.ok && Starts(m.cause)
  }

  /** Only the reply that starts the listing adds a lister; nothing else changes a context's kind. */
  lemma DeliverKeepsKinds(s: State, x: nat)
    requires ContextsOk(s) && Enabled(s, Deliver)
    requires StartsListing(s.inbox[0]) ==> x != s.client.next
    ensures SameKind(s.client, Apply(s, Deliver).client, x)
  {
    HeadFits(s);
    assert ContextOk(s, x);
    HandleKeepsKinds(s.client, s.inbox[0], x);
  }

  lemma HandleKeepsKinds(c: Client, m: Msg, x: nat)
    requires m.ctx in c.contexts && (ReplyFits(c.contexts[m.ctx], m) || FireFits(c.contexts[m.ctx], m))
    requires (x in c.contexts ==> x < c.next) && (StartsListing(m) ==> x != c.next)
    ensures SameKind(c, Handle(c, m).0, x)
  {
    match m
    case ExistsReply(_, _, _) => CheckReplyKinds(c, m, x);
    case ListReply(_, _) => ListingKinds(c, m, x);
    case GetReply(_, _, _, _) =>
    case Fire(_, _, _) => FireKinds(c, m, x);
  }

  /** A context keeps its kind. */
  predicate SameKind(c: Client, d: Client, x: nat) {
    && (x in c.contexts && c.contexts[x].ListCtx? <==> x in d.contexts && d.contexts[x].ListCtx?)
    && (x in c.contexts && c.contexts[x].ExistsCtx? <==> x in d.contexts && d.contexts[x].ExistsCtx?)
  }

  lemma KindsStay(c: Client, d: Client)
    requires OneOfAKind(c) && forall x: nat :: SameKind(c, d, x)
    ensures OneOfAKind(d) && (HasLister(d) <==> HasLister(c))
  {
    assert SameKind(c, d, 0);
    if HasLister(c) {
      var x :| x in c.contexts && c.contexts[x].ListCtx?;
      assert SameKind(c, d, x);
    }
    if HasLister(d) {
      var x :| x in d.contexts && d.contexts[x].ListCtx?;
      assert SameKind(c, d, x);
    }
    forall x | x in d.contexts && d.contexts[x].ExistsCtx? ensures x == 0 { assert SameKind(c, d, x); }
    forall x, y | x in d.contexts && y in d.contexts && d.contexts[x].ListCtx? && d.contexts[y].ListCtx?
      ensures x == y
    {
      assert SameKind(c, d, x) && SameKind(c, d, y);
    }
  }

  lemma CheckReplyKinds(c: Client, m: Msg, x: nat)
    requires m.ExistsReply? && m.ctx in c.contexts && c.contexts[m.ctx] == ExistsCtx(m.cause)
    requires StartsListing(m) ==> x != c.next
    ensures SameKind(c, Handle(c, m).0, x)
  {}

  lemma ListingKinds(c: Client, m: Msg, x: nat)
    requires m.ListReply? && (x in c.contexts ==> x < c.next)
    ensures SameKind(c, Handle(c, m).0, x)
  {}

  lemma FireKinds(c: Client, m: Msg, x: nat)
    requires m.Fire? && m.ctx in c.contexts && FireFits(c.contexts[m.ctx], m)
    ensures SameKind(c, Handle(c, m).0, x)
  {}

  lemma DeliverStarts(s: State)
    requires ListingOk(s) && Enabled(s, Deliver) && StartsListing(s.inbox[0])
    ensures ExistsOk(Apply(s, Deliver))
  {
    HeadFits(s);
    assert ContextOk(s, 0) && ContextOk(s, s.client.next);
    assert s.inbox[0].ctx == 0 && !HasLister(s.client);
    ParentFoundShare(s, 0);
    NewLister(s.client, Apply(s, Deliver).client);
  }

  lemma NewLister(c: Client, d: Client)
    requires OneOfAKind(c) && !HasLister(c) && c.next !in c.contexts && d.contexts == c.contexts[c.next := ListCtx]
    ensures OneOfAKind(d) && HasLister(d)
  {
    assert d.contexts[c.next].ListCtx?;
  }

  lemma DeliverKeepsExists(s: State)
    requires ListingOk(s) && Enabled(s, Deliver)
    ensures ExistsOk(Apply(s, Deliver))
  {
    var t, m := Apply(s, Deliver), s.inbox[0];
    if StartsListing(m) {
      DeliverStarts(s);
    } else {
      forall x: nat ensures SameKind(s.client, t.client, x) { DeliverKeepsKinds(s, x); }
      KindsStay(s.client, t.client);
      DeliverKeepsWillList(s);
    }
  }

  lemma DeliverKeepsWillList(s: State)
    requires ListingOk(s) && Enabled(s, Deliver) && !StartsListing(s.inbox[0])
    ensures var t := Apply(s, Deliver);
            var rs, ms := RequestsOf(t.requests, 0), MessagesOf(t.inbox, 0);
            && (!s.server.parent ==> WaitsForParent(0 in t.server.armed, rs, ms))
            && (s.server.parent ==>
                  (WillList(rs, ms) <==> WillList(RequestsOf(s.requests, 0), MessagesOf(s.inbox, 0))))
            && (|ms| == 2 ==> ms == MessagesOf(s.inbox, 0))
  {
    assert ContextOk(s, 0);
    if s.inbox[0].ctx == 0 {
      DeliverShare(s, 0);
      HeadFits(s);
    } else {
      DeliverElsewhere(s, 0);
    }
  }

  /** A context the head message is not for keeps its share. */
  lemma DeliverElsewhere(s: State, x: nat)
    requires ContextsOk(s) && Enabled(s, Deliver) && x < s.client.next && s.inbox[0].ctx != x
    ensures RequestsOf(Apply(s, Deliver).requests, x) == RequestsOf(s.requests, x)
    ensures MessagesOf(Apply(s, Deliver).inbox, x) == MessagesOf(s.inbox, x)
  {
    HeadFits(s);
    DeliverShare(s, x);
  }

  lemma DeliverKeepsLister(s: State, x: nat)
    requires ListingOk(s) && Enabled(s, Deliver)
    requires var c := Apply(s, Deliver).client; x in c.contexts && c.contexts[x].ListCtx?
    ensures ListerOk(Apply(s, Deliver), x)
  {
    if StartsListing(s.inbox[0]) && x == s.client.next {
      DeliverNewLister(s);
    } else {
      DeliverKeepsKinds(s, x);
      DeliverKeepsOldLister(s, x);
    }
  }

  lemma DeliverNewLister(s: State)
    requires ContextsOk(s) && Enabled(s, Deliver) && StartsListing(s.inbox[0])
    ensures ListerOk(Apply(s, Deliver), s.client.next)
  {
    var x := s.client.next;
    HeadFits(s);
    assert ContextOk(s, x);
    ParentFoundShare(s, x);
  }

  lemma DeliverKeepsOldLister(s: State, x: nat)
    requires ListingOk(s) && Enabled(s, Deliver)
    requires x in s.client.contexts && s.client.contexts[x].ListCtx?
    ensures ListerOk(Apply(s, Deliver), x)
  {
    assert ContextOk(s, x) && ListerOk(s, x);
    DeliverCache(s);
    ListedHead(s.client.cache, s.inbox);
    if s.inbox[0].ctx == x {
      ListerShare(s);
    } else {
      DeliverElsewhere(s, x);
    }
  }

  /** The lister's own reply is used up; its event becomes the next request. */
  lemma ListerShare(s: State)
    requires ContextsOk(s) && Enabled(s, Deliver) && s.inbox[0].ctx in s.client.contexts
    requires s.client.contexts[s.inbox[0].ctx].ListCtx?
    ensures var t, m := Apply(s, Deliver), s.inbox[0];
            && t.server == s.server && (m.ListReply? || m.Fire?)
            && MessagesOf(t.inbox, m.ctx) == MessagesOf(s.inbox, m.ctx)[1..]
            && RequestsOf(t.requests, m.ctx) == if m.Fire? then [AskList(m.ctx)] else []
  {
    var x := s.inbox[0].ctx;
    HeadFits(s);
    assert ContextOk(s, x);
    DeliverShare(s, x);
  }

  lemma StepKeepsListing(s: State, step: Step)
    requires ListingOk(s) && Enabled(s, step)
    ensures ListingOk(Apply(s, step))
  {
    var sv := s.server;
    match step
    case CreateParent(fired) => CreateParentKeepsListing(s, fired);
    case SetParent(fired) => SetParentKeepsListing(s, fired);
    case CreateChild(name, data, listFired) =>
      ChildrenChangeKeepsListing(s, sv.children[name := data], listFired);
    case SetChild(name, data, fired) =>
      var s1 := s.(server := sv.(children := sv.children[name := data]));
      assert s1.server.children.Keys == sv.children.Keys;
      assert forall x: nat :: ContextOk(s, x) ==> ContextOk(s1, x);
      assert forall x :: ListerOk(s, x) ==> ListerOk(s1, x);
      ChildTriggerKeepsListing(s1, name, Changed, fired);
    case DeleteChild(name, fired, listFired) =>
      ChildTriggerKeepsListing(s, name, Deleted, fired);
      var s1 := Trigger(s, OnChild(name), Deleted, fired);
      ChildrenChangeKeepsListing(s1, sv.children - {name}, listFired);
    case Serve(order) => ServeKeepsListing(s, order);
    case Deliver => DeliverKeepsListing(s);
  }

  lemma {:induction false} RunKeepsListing(s: State, steps: seq<Step>)
    requires ListingOk(s) && IsRun(s, steps)
    ensures ListingOk(End(s, steps))
    decreases |steps|
  {
    if steps != [] {
      StepKeepsListing(s, steps[0]);
      RunKeepsListing(Apply(s, steps[0]), steps[1..]);
    }
  }

  // ---------- what it means for every run ----------

  /** A request, reply or event of the context is under way. */
  predicate InFlight(s: State, x: nat) {
    RequestsOf(s.requests, x) != [] || MessagesOf(s.inbox, x) != []
  }

  /** While the parent exists, under any interleaving of child creates, deletes and re-creates: the
      check that starts the listing is under way, or the listing is under way, or the child watch
      is armed and the cached set equals the server's child set. */
  lemma ListingCurrentOrInFlight(s: State, steps: seq<Step>)
    requires Init(s) && IsRun(s, steps)
    requires End(s, steps).server.parent
    ensures var t := End(s, steps);
            || InFlight(t, 0)
            || exists x :: x in t.client.contexts && t.client.contexts[x].ListCtx?
                           && (InFlight(t, x)
                               || (x in t.server.armed && t.client.cache == Some(t.server.children.Keys)))
  {
    var t := End(s, steps);
    InitListing(s);
    RunKeepsListing(s, steps);
    if HasLister(t.client) {
      var x :| x in t.client.contexts && t.client.contexts[x].ListCtx?;
      assert ListerOk(t, x);
      if !InFlight(t, x) { NoListing(t, x); }
    }
  }

  lemma ListerOfReply(s: State, m: Msg)
    requires ContextsOk(s) && m in s.inbox && m.ListReply?
    ensures m.ctx in s.client.contexts && s.client.contexts[m.ctx].ListCtx?
  {
    assert ContextOk(s, m.ctx);
    MessagesOfMember(s.inbox, m.ctx, m);
  }

  /** With nothing of the only lister under way, the queue will not change the cache. */
  lemma NoListing(s: State, x: nat)
    requires ListingOk(s) && x in s.client.contexts && s.client.contexts[x].ListCtx?
    requires MessagesOf(s.inbox, x) == []
    ensures Listed(s.client.cache, s.inbox) == s.client.cache
  {
    forall m | m in s.inbox ensures !m.ListReply? {
      if m.ListReply? {
        ListerOfReply(s, m);
        MessagesOfMember(s.inbox, x, m);
      }
    }
    ListedNone(s.client.cache, s.inbox);
  }
}
