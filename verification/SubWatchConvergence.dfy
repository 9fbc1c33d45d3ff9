/**
 * Convergence of `watch_sub_path`: in every quiescent state of a disciplined run, replaying the
 * notifications gives the server's child-to-value map and each child has exactly one armed context.
 *
 * A run is disciplined when no child is deleted while its re-read is under way and no child is
 * created while the client still takes it for known.  `SubWatchExact` shows that neither condition
 * can be weakened.
 */
module SubWatchConvergence {
  import opened Seqs
  import opened Zk
  import opened SubWatch
  import opened SubWatchContexts
  import opened SubWatchListing

  // ---------- what the queue still holds for the user and for the cache ----------

  function Effect(view: map<Name, Data>, m: Msg): map<Name, Data> {
    if m.GetReply? && m.data.Some? then view[m.name := m.data.value]
    else if m.Fire? && m.target.OnChild? && m.event == Deleted then view - {m.target.name}
    else view
  }

  /** The replayed map once every message now in the queue has been handled. */
  function Outlook(view: map<Name, Data>, q: seq<Msg>): map<Name, Data>
    decreases |q|
  {
    if q == [] then view else Outlook(Effect(view, q[0]), q[1..])
  }

  function View(s: State): map<Name, Data> {
    Outlook(Replay(s.client.log), s.inbox)
  }

  /** The names the listings now in the queue will make the client monitor. */
  function ToMonitor(cache: Option<set<Name>>, q: seq<Msg>): set<Name>
    decreases |q|
  {
    if q == [] then {}
    else if q[0].ListReply? && q[0].names.Some? then
      (Elements(q[0].names.value) - Known(cache)) + ToMonitor(Some(Elements(q[0].names.value)), q[1..])
    else ToMonitor(cache, q[1..])
  }

  function Pending(s: State): set<Name> { ToMonitor(s.client.cache, s.inbox) }

  function KnownSoon(s: State): set<Name> { Known(Listed(s.client.cache, s.inbox)) }

  lemma {:induction false} OutlookAppend(view: map<Name, Data>, p: seq<Msg>, q: seq<Msg>)
    ensures Outlook(view, p + q) == Outlook(Outlook(view, p), q)
    decreases |p|
  {
    if p == [] {
      assert p + q == q;
    } else {
      assert (p + q)[1..] == p[1..] + q;
      OutlookAppend(Effect(view, p[0]), p[1..], q);
    }
  }

  lemma {:induction false} OutlookIdle(view: map<Name, Data>, q: seq<Msg>)
    requires forall m :: m in q ==> Effect(view, m) == view
    ensures Outlook(view, q) == view
    decreases |q|
  {
    if q != [] {
      assert q[0] in q;
      OutlookIdle(view, q[1..]);
    }
  }

  lemma {:induction false} ToMonitorAppend(cache: Option<set<Name>>, p: seq<Msg>, q: seq<Msg>)
    ensures ToMonitor(cache, p + q) == ToMonitor(cache, p) + ToMonitor(Listed(cache, p), q)
    decreases |p|
  {
    if p == [] {
      assert p + q == q;
    } else {
      assert (p + q)[1..] == p[1..] + q;
      var c := if p[0].ListReply? && p[0].names.Some? then Some(Elements(p[0].names.value)) else cache;
      ToMonitorAppend(c, p[1..], q);
    }
  }

  lemma {:induction false} ToMonitorNone(cache: Option<set<Name>>, q: seq<Msg>)
    requires forall m :: m in q ==> !m.ListReply?
    ensures ToMonitor(cache, q) == {}
    decreases |q|
  {
    if q != [] {
      assert q[0] in q;
      ToMonitorNone(cache, q[1..]);
    }
  }

  // ---------- active contexts ----------

  predicate ArmedFor(s: State, x: nat, c: Name) { x in s.server.armed && s.server.armed[x] == OnChild(c) }

  /** A re-read of the child is under way: its change event is queued or the request is. */
  predicate Rereading(s: State, x: nat, c: Name) {
    AskGet(x, c, Changed) in s.requests || Fire(x, OnChild(c), Changed) in s.inbox
  }

  predicate FirstRead(s: State, x: nat, c: Name) { AskGet(x, c, Dummy) in s.requests }

  /** The context still reports on the child. */
  predicate ActiveFor(s: State, x: nat, c: Name) {
    ArmedFor(s, x, c) || Rereading(s, x, c) || FirstRead(s, x, c)
  }

  ghost predicate Covered(s: State, c: Name) {
    exists x: nat :: ActiveFor(s, x, c)
  }

  // ---------- the invariant ----------

  ghost predicate UniqueActive(s: State) {
    forall x: nat, y: nat, c :: ActiveFor(s, x, c) && ActiveFor(s, y, c) ==> x == y
  }

  ghost predicate ArmedIsCurrent(s: State) {
    forall x: nat, c :: ArmedFor(s, x, c) ==>
      c in s.server.children && c in View(s) && View(s)[c] == s.server.children[c]
  }

  ghost predicate RereadExists(s: State) {
    forall x: nat, c :: Rereading(s, x, c) ==> c in s.server.children && c in View(s)
  }

  ghost predicate FirstReadUnseen(s: State) {
    forall x: nat, c :: FirstRead(s, x, c) ==> c !in View(s)
  }

  ghost predicate ViewCovered(s: State) {
    forall c :: c in View(s) ==> Covered(s, c)
  }

  ghost predicate ActiveKnown(s: State) {
    forall x: nat, c :: ActiveFor(s, x, c) ==> c in Known(s.client.cache) && c in KnownSoon(s)
  }

  ghost predicate ChildrenFound(s: State) {
    forall c :: c in s.server.children ==> Covered(s, c) || c in Pending(s) || c !in KnownSoon(s)
  }

  /** No first read waits behind a listing request. */
  predicate ReadsBeforeListing(q: seq<Request>) {
    forall i, j :: 0 <= i < j < |q| && q[i].AskList? && q[j].AskGet? ==> q[j].cause != Dummy
  }

  ghost predicate Monitored(s: State) {
    && UniqueActive(s) && ArmedIsCurrent(s) && RereadExists(s) && FirstReadUnseen(s)
    && ViewCovered(s) && ActiveKnown(s) && ChildrenFound(s) && ReadsBeforeListing(s.requests)
  }

  ghost predicate Disciplined(s: State) {
    ListingOk(s) && Monitored(s)
  }

  // ---------- the discipline ----------

  /** The client will not pass the created child over: it is not taken for known, or it is about to
      be monitored, or a read of it is outstanding. */
  ghost predicate SafeCreate(s: State, c: Name) {
    c !in KnownSoon(s) || c in Pending(s) || Covered(s, c)
  }

  ghost predicate SafeDelete(s: State, c: Name) {
    forall x: nat :: !Rereading(s, x, c)
  }

  ghost predicate Safe(s: State, step: Step) {
    match step
    case CreateChild(c, _, _) => SafeCreate(s, c)
    case DeleteChild(c, _, _) => SafeDelete(s, c)
    case _ => true
  }

  ghost predicate DisciplinedRun(s: State, steps: seq<Step>)
    decreases |steps|
  {
    steps == [] || (Enabled(s, steps[0]) && Safe(s, steps[0]) && DisciplinedRun(Apply(s, steps[0]), steps[1..]))
  }

  lemma InitDisciplined(s: State)
    requires Init(s)
    ensures Disciplined(s)
  {
    InitListing(s);
  }

  /** Both states have the same contexts active on every child. */
  ghost predicate SameActive(s: State, t: State) {
    && (forall x: nat, c :: ArmedFor(t, x, c) <==> ArmedFor(s, x, c))
    && (forall x: nat, c :: Rereading(t, x, c) <==> Rereading(s, x, c))
    && (forall x: nat, c :: FirstRead(t, x, c) <==> FirstRead(s, x, c))
  }

  lemma SameCovered(s: State, t: State)
    requires forall x: nat, c :: ActiveFor(t, x, c) <==> ActiveFor(s, x, c)
    ensures forall c :: Covered(t, c) <==> Covered(s, c)
  {}

  // ---------- preservation: server-side writes ----------

  /** Firing watches that are not on a child changes nothing for the children. */
  lemma OtherTrigger(s: State, target: Target, event: Event, fired: seq<nat>)
    requires !target.OnChild? && AllArmed(s.server.armed, target, fired)
    ensures var t := Trigger(s, target, event, fired);
            && View(t) == View(s) && Pending(t) == Pending(s) && KnownSoon(t) == KnownSoon(s)
            && SameActive(s, t)
  {
    var fs := Fires(fired, target, event);
    FiresAreFires(fired, target, event);
    OutlookAppend(Replay(s.client.log), s.inbox, fs);
    OutlookIdle(View(s), fs);
    ToMonitorAppend(s.client.cache, s.inbox, fs);
    ToMonitorNone(Listed(s.client.cache, s.inbox), fs);
    TriggerKeepsListed(s, target, event, fired);
  }

  lemma OtherTriggerKeepsMonitored(s: State, target: Target, event: Event, fired: seq<nat>)
    requires Monitored(s) && !target.OnChild? && AllArmed(s.server.armed, target, fired)
    ensures Monitored(Trigger(s, target, event, fired))
  {
    var t := Trigger(s, target, event, fired);
    OtherTrigger(s, target, event, fired);
    SameCovered(s, t);
  }

  lemma CreateKeepsMonitored(s: State, name: Name, data: Data)
    requires Monitored(s) && name !in s.server.children && SafeCreate(s, name)
    ensures Monitored(s.(server := s.server.(children := s.server.children[name := data])))
  {
    var t := s.(server := s.server.(children := s.server.children[name := data]));
    assert SameActive(s, t);
    SameCovered(s, t);
    assert View(t) == View(s);
  }

  /** Firing a child's data watches: what changes is that child's share only. */
  lemma ChildTrigger(s: State, name: Name, event: Event, fired: seq<nat>)
    requires AllArmed(s.server.armed, OnChild(name), fired) && Possible(OnChild(name), event)
    ensures var t := Trigger(s, OnChild(name), event, fired);
            && View(t) == (if event == Deleted && fired != [] then View(s) - {name} else View(s))
            && Pending(t) == Pending(s) && KnownSoon(t) == KnownSoon(s)
            && (forall x: nat, c :: ArmedFor(t, x, c) <==> ArmedFor(s, x, c) && c != name)
            && (forall x: nat, c :: Rereading(t, x, c) <==>
                  Rereading(s, x, c) || (event == Changed && c == name && ArmedFor(s, x, name)))
            && (forall x: nat, c :: FirstRead(t, x, c) <==> FirstRead(s, x, c))
  {
    var fs := Fires(fired, OnChild(name), event);
    FiresAreFires(fired, OnChild(name), event);
    FiresMember(fired, OnChild(name), event);
    OutlookAppend(Replay(s.client.log), s.inbox, fs);
    if event == Deleted && fired != [] {
      assert fs[0] == Fire(fired[0], OnChild(name), event);
      OutlookIdle(View(s) - {name}, fs[1..]);
    } else {
      OutlookIdle(View(s), fs);
    }
    ToMonitorAppend(s.client.cache, s.inbox, fs);
    ToMonitorNone(Listed(s.client.cache, s.inbox), fs);
    TriggerKeepsListed(s, OnChild(name), event, fired);
  }

  lemma {:induction false} FiresMember(fired: seq<nat>, target: Target, event: Event)
    ensures forall x :: x in fired ==> Fire(x, target, event) in Fires(fired, target, event)
  {
    if fired != [] { FiresMember(fired[1..], target, event); }
  }

  lemma SetKeepsMonitored(s: State, name: Name, data: Data, fired: seq<nat>)
    requires Monitored(s) && Enabled(s, SetChild(name, data, fired))
    ensures Monitored(Apply(s, SetChild(name, data, fired)))
  {
    var s1 := s.(server := s.server.(children := s.server.children[name := data]));
    var t := Trigger(s1, OnChild(name), Changed, fired);
    ChildTrigger(s1, name, Changed, fired);
    assert View(s1) == View(s);
    assert SameActive(s, s1);
    SameCovered(s, t);
  }

  lemma DeleteKeepsMonitored(s: State, name: Name, fired: seq<nat>)
    requires Monitored(s) && ContextsOk(s) && name in s.server.children && SafeDelete(s, name)
    requires AllArmed(s.server.armed, OnChild(name), fired)
    ensures var gone := s.(server := s.server.(children := s.server.children - {name}));
            Monitored(Trigger(gone, OnChild(name), Deleted, fired))
  {
    var s1 := s.(server := s.server.(children := s.server.children - {name}));
    var t := Trigger(s1, OnChild(name), Deleted, fired);
    ChildTrigger(s1, name, Deleted, fired);
    assert SameActive(s, s1) && View(s1) == View(s);
    assert forall x: nat, c :: ActiveFor(t, x, c) ==> ActiveFor(s, x, c);
    forall c | c != name ensures Covered(s, c) ==> Covered(t, c) {
      if Covered(s, c) {
        var x: nat :| ActiveFor(s, x, c);
        assert ActiveFor(t, x, c);
      }
    }
    if name in View(s) {
      var x: nat :| ActiveFor(s, x, name);
      assert ArmedFor(s, x, name);
      assert x in fired;
    }
    assert name !in View(t);
  }

  // ---------- preservation: serving a request ----------

  /** Queueing one reply: what it adds to the outlook, the listing and the names to monitor. */
  lemma QueueOne(s: State, m: Msg)
    ensures var q, log, cache := s.inbox + [m], s.client.log, s.client.cache;
            && Outlook(Replay(log), q) == Effect(View(s), m)
            && Listed(cache, q) == Listed(Listed(cache, s.inbox), [m])
            && ToMonitor(cache, q) == Pending(s) + ToMonitor(Listed(cache, s.inbox), [m])
  {
    OutlookAppend(Replay(s.client.log), s.inbox, [m]);
    ListedAppend(s.client.cache, s.inbox, [m]);
    ToMonitorAppend(s.client.cache, s.inbox, [m]);
    assert [m][1..] == [];
  }

  /** Serving the exists check or the listing leaves every child context as it was. */
  lemma ServeOtherActive(s: State, order: seq<Name>)
    requires ContextsOk(s) && Enabled(s, Serve(order)) && !s.requests[0].AskGet?
    ensures var t := Apply(s, Serve(order));
            SameActive(s, t) && View(t) == View(s)
  {
    var reply := Answer(s.server, s.requests[0], order).0;
    QueueOne(s, reply);
    assert ContextOk(s, reply.ctx);
  }

  lemma ServeExistsKeepsMonitored(s: State, order: seq<Name>)
    requires Disciplined(s) && Enabled(s, Serve(order)) && s.requests[0].AskExists?
    ensures Monitored(Apply(s, Serve(order)))
  {
    var t := Apply(s, Serve(order));
    var reply := Answer(s.server, s.requests[0], order).0;
    QueueOne(s, reply);
    ServeOtherActive(s, order);
    SameCovered(s, t);
  }

  /** Serving the listing brings the cache up to date and queues the names it will monitor. */
  lemma ServeListKnown(s: State, order: seq<Name>)
    requires ListingOk(s) && Enabled(s, Serve(order)) && s.requests[0].AskList?
    ensures var t := Apply(s, Serve(order));
            && KnownSoon(t) == s.server.children.Keys
            && Pending(t) == Pending(s) + (s.server.children.Keys - KnownSoon(s))
  {
    var reply := Answer(s.server, s.requests[0], order).0;
    QueueOne(s, reply);
    assert ContextOk(s, reply.ctx);
    assert s.server.parent;
    assert [reply][1..] == [];
  }

  lemma ServeListKeepsMonitored(s: State, order: seq<Name>)
    requires Disciplined(s) && Enabled(s, Serve(order)) && s.requests[0].AskList?
    ensures Monitored(Apply(s, Serve(order)))
  {
    ServeListKnown(s, order);
    ServeOtherActive(s, order);
    SameCovered(s, Apply(s, Serve(order)));
    NoFirstRead(s.requests);
    assert forall x: nat, c :: !FirstRead(s, x, c);
  }

  /** When a listing request is next to be served, no first read is outstanding. */
  lemma NoFirstRead(q: seq<Request>)
    requires ReadsBeforeListing(q) && q != [] && q[0].AskList?
    ensures forall r :: r in q && r.AskGet? ==> r.cause != Dummy
  {
    forall r | r in q && r.AskGet? ensures r.cause != Dummy {
      var j :| 0 <= j < |q| && q[j] == r;
      assert q[0].AskList? && q[j].AskGet?;
    }
  }

  /** The request being served is the only thing under way for its context. */
  lemma ServedAlone(s: State, x: nat)
    requires ContextsOk(s) && s.requests != [] && s.requests[0].ctx == x
    ensures x in s.client.contexts && RequestFits(s.client.contexts[x], s.requests[0])
    ensures x !in s.server.armed
    ensures forall c, e :: AskGet(x, c, e) !in s.requests[1..]
    ensures forall c, e :: Fire(x, OnChild(c), e) !in s.inbox
  {
    assert ContextOk(s, x);
    forall c, e ensures AskGet(x, c, e) !in s.requests[1..] {
      RequestsOfMember(s.requests[1..], x, AskGet(x, c, e));
    }
    forall c, e ensures Fire(x, OnChild(c), e) !in s.inbox {
      MessagesOfMember(s.inbox, x, Fire(x, OnChild(c), e));
    }
  }

  /** How serving a read changes which contexts are active. */
  lemma ServeGetActive(s: State, order: seq<Name>)
    requires ContextsOk(s) && Enabled(s, Serve(order)) && s.requests[0].AskGet?
    ensures var t := Apply(s, Serve(order));
            var AskGet(x, c, cause) := s.requests[0];
            && (forall y: nat, d :: ArmedFor(t, y, d) <==>
                  if y == x then d == c && c in s.server.children else ArmedFor(s, y, d))
            && (forall y: nat, d :: Rereading(t, y, d) <==> y != x && Rereading(s, y, d))
            && (forall y: nat, d :: FirstRead(t, y, d) <==> y != x && FirstRead(s, y, d))
            && (forall d :: ActiveFor(s, x, d) <==> d == c)
  {
    var AskGet(x, c, cause) := s.requests[0];
    ServedAlone(s, x);
    assert ContextOk(s, x);
    assert forall r :: r in s.requests <==> r == s.requests[0] || r in s.requests[1..];
  }

  /** A read that finds its child: the context is armed with the value it reports. */
  lemma ServeFound(s: State, order: seq<Name>)
    requires Disciplined(s) && Enabled(s, Serve(order)) && s.requests[0].AskGet?
    requires s.requests[0].name in s.server.children
    ensures var t, r := Apply(s, Serve(order)), s.requests[0];
            && View(t) == View(s)[r.name := s.server.children[r.name]]
            && KnownSoon(t) == KnownSoon(s) && Pending(t) == Pending(s)
            && (forall y: nat, d :: ActiveFor(t, y, d) <==> ActiveFor(s, y, d))
            && ActiveFor(t, r.ctx, r.name)
  {
    var reply := Answer(s.server, s.requests[0], order).0;
    QueueOne(s, reply);
    assert [reply][1..] == [];
    ServeGetActive(s, order);
  }

  lemma ServeFoundKeepsMonitored(s: State, order: seq<Name>)
    requires Disciplined(s) && Enabled(s, Serve(order)) && s.requests[0].AskGet?
    requires s.requests[0].name in s.server.children
    ensures Monitored(Apply(s, Serve(order)))
  {
    var t := Apply(s, Serve(order));
    ServeFound(s, order);
    SameCovered(s, t);
    ServeGetActive(s, order);
    assert UniqueActive(t);
    assert ArmedIsCurrent(t) && RereadExists(t);
    forall y: nat, d | FirstRead(t, y, d) ensures d !in View(t) {
      assert ActiveFor(s, y, d);
    }
  }

  /** A read that finds no child is a first read; the context is dead and was never reported. */
  lemma ServeMissedKeepsMonitored(s: State, order: seq<Name>)
    requires Disciplined(s) && Enabled(s, Serve(order)) && s.requests[0].AskGet?
    requires s.requests[0].name !in s.server.children
    ensures Monitored(Apply(s, Serve(order)))
  {
    var t := Apply(s, Serve(order));
    var AskGet(x, c, cause) := s.requests[0];
    var reply := Answer(s.server, s.requests[0], order).0;
    QueueOne(s, reply);
    assert KnownSoon(t) == KnownSoon(s) && Pending(t) == Pending(s) by { assert [reply][1..] == []; }
    ServeGetActive(s, order);
    assert c !in View(s) by {
      ServedAlone(s, x);
      assert ContextOk(s, x);
      assert !Rereading(s, x, c);
      assert FirstRead(s, x, c);
    }
    assert forall y: nat, d :: ActiveFor(t, y, d) <==> y != x && ActiveFor(s, y, d);
    forall d | d != c && Covered(s, d) ensures Covered(t, d) {
      var y: nat :| ActiveFor(s, y, d);
      assert ActiveFor(t, y, d);
    }
  }

  // ---------- preservation: delivering a message ----------

  /** Handling the head message notifies exactly its effect. */
  lemma DeliverLog(s: State)
    requires ContextsOk(s) && s.inbox != []
    ensures Replay(Apply(s, Deliver).client.log) == Effect(Replay(s.client.log), s.inbox[0])
  {
    match s.inbox[0]
    case ExistsReply(_, _, _) =>
    case ListReply(_, _) =>
    case GetReply(_, _, _, _) => DeliverReadLog(s);
    case Fire(_, _, _) => DeliverFireLog(s);
  }

  lemma DeliverReadLog(s: State)
    requires ContextsOk(s) && s.inbox != [] && s.inbox[0].GetReply?
    ensures Replay(Apply(s, Deliver).client.log) == Effect(Replay(s.client.log), s.inbox[0])
  {
    var m := s.inbox[0];
    HeadFits(s);
    assert ContextOk(s, m.ctx);
    ReadLog(s.client, m);
  }

  lemma ReadLog(c: Client, m: Msg)
    requires m.GetReply? && m.ctx in c.contexts && c.contexts[m.ctx] == GetCtx(m.name, m.cause) && m.cause != Deleted
    ensures Replay(Handle(c, m).0.log) == Effect(Replay(c.log), m)
  {
    if m.data.Some? { ReplayMore(c.log, ChangedNote(m.name, m.data.value)); }
  }

  lemma DeliverFireLog(s: State)
    requires ContextsOk(s) && s.inbox != [] && s.inbox[0].Fire?
    ensures Replay(Apply(s, Deliver).client.log) == Effect(Replay(s.client.log), s.inbox[0])
  {
    HeadFits(s);
    FireLog(s.client, s.inbox[0]);
  }

  lemma FireLog(c: Client, m: Msg)
    requires m.Fire? && m.ctx in c.contexts && FireFits(c.contexts[m.ctx], m)
    ensures Replay(Handle(c, m).0.log) == Effect(Replay(c.log), m)
  {
    if m.target.OnChild? && m.event == Deleted { ReplayMore(c.log, DelNote(m.target.name)); }
  }

  lemma ReplayMore(log: seq<Note>, n: Note)
    ensures Replay(log + [n]) == Note1(Replay(log), n)
  {
    assert (log + [n])[..|log|] == log;
  }

  lemma DeliverView(s: State)
    requires ContextsOk(s) && s.inbox != []
    ensures var t, m := Apply(s, Deliver), s.inbox[0];
            && View(t) == View(s) && KnownSoon(t) == KnownSoon(s)
            && (m.ListReply? && m.names.Some? ==>
                  Pending(s) == (Elements(m.names.value) - Known(s.client.cache)) + Pending(t))
            && (!(m.ListReply? && m.names.Some?) ==> Pending(t) == Pending(s) && t.client.cache == s.client.cache)
  {
    DeliverLog(s);
    DeliverCache(s);
    OutlookHead(Replay(s.client.log), s.inbox);
    ListedHead(s.client.cache, s.inbox);
    ToMonitorHead(s.client.cache, s.inbox);
  }

  lemma OutlookHead(view: map<Name, Data>, q: seq<Msg>)
    requires q != []
    ensures Outlook(view, q) == Outlook(Effect(view, q[0]), q[1..])
  {}

  lemma ToMonitorHead(cache: Option<set<Name>>, q: seq<Msg>)
    requires q != []
    ensures ToMonitor(cache, q) ==
              (if q[0].ListReply? && q[0].names.Some? then Elements(q[0].names.value) - Known(cache) else {})
              + ToMonitor(CacheAfter(cache, q[0]), q[1..])
  {}

  lemma ReplySameActive(s: State)
    requires ContextsOk(s) && s.inbox != []
    requires s.inbox[0].GetReply? || s.inbox[0].ExistsReply? || (s.inbox[0].ListReply? && s.inbox[0].names.None?)
    ensures SameActive(s, Apply(s, Deliver))
  {
    HeadFits(s);
  }

  lemma DeliverReplyKeepsMonitored(s: State)
    requires Disciplined(s) && s.inbox != []
    requires s.inbox[0].GetReply? || s.inbox[0].ExistsReply? || (s.inbox[0].ListReply? && s.inbox[0].names.None?)
    ensures Monitored(Apply(s, Deliver))
  {
    var t := Apply(s, Deliver);
    DeliverView(s);
    HeadFits(s);
    ReplySameActive(s);
    SameCovered(s, t);
  }

  lemma DeliverFireKeepsMonitored(s: State)
    requires Disciplined(s) && s.inbox != [] && s.inbox[0].Fire?
    ensures Monitored(Apply(s, Deliver))
  {
    var t := Apply(s, Deliver);
    DeliverView(s);
    FireSameActive(s);
    SameCovered(s, t);
    FireAsks(s);
    ReadsBeforeMore(s.requests, Handle(s.client, s.inbox[0]).1);
  }

  lemma ReadsBeforeMore(q: seq<Request>, out: seq<Request>)
    requires ReadsBeforeListing(q) && |out| <= 1 && (out != [] && out[0].AskGet? ==> out[0].cause != Dummy)
    ensures ReadsBeforeListing(q + out)
  {}

  /** What the client asks for after an event. */
  lemma FireAsks(s: State)
    requires ContextsOk(s) && s.inbox != [] && s.inbox[0].Fire?
    ensures var t := Apply(s, Deliver);
            && t.server == s.server && t.inbox == s.inbox[1..] && t.client.cache == s.client.cache
            && t.requests == s.requests + Handle(s.client, s.inbox[0]).1
    ensures var out := Handle(s.client, s.inbox[0]).1;
            |out| <= 1 && (out != [] && out[0].AskGet? ==> out[0].cause != Dummy)
  {
    HeadFits(s);
  }

  lemma FireSameActive(s: State)
    requires ContextsOk(s) && s.inbox != [] && s.inbox[0].Fire?
    ensures SameActive(s, Apply(s, Deliver))
  {
    HeadFits(s);
    var m := s.inbox[0];
    assert ContextOk(s, m.ctx);
    forall x: nat, c { FireActive(s, x, c); }
  }

  lemma FireActive(s: State, x: nat, c: Name)
    requires s.inbox != [] && s.inbox[0].Fire? && s.inbox[0].ctx in s.client.contexts
    requires FireFits(s.client.contexts[s.inbox[0].ctx], s.inbox[0])
    ensures var t := Apply(s, Deliver);
            && (ArmedFor(t, x, c) <==> ArmedFor(s, x, c)) && (Rereading(t, x, c) <==> Rereading(s, x, c))
            && (FirstRead(t, x, c) <==> FirstRead(s, x, c))
  {
    var out := Handle(s.client, s.inbox[0]).1;
    InEither(s.requests, out, AskGet(x, c, Changed));
    InEither(s.requests, out, AskGet(x, c, Dummy));
    assert Fire(x, OnChild(c), Changed) in s.inbox <==>
           Fire(x, OnChild(c), Changed) == s.inbox[0] || Fire(x, OnChild(c), Changed) in s.inbox[1..];
  }

  lemma {:induction false} FreshIs(names: seq<Name>, known: set<Name>)
    ensures forall c :: c in Fresh(names, known) <==> c in names && c !in known
  {
    if names != [] { FreshIs(names[1..], known); }
  }

  lemma {:induction false} FreshDistinct(names: seq<Name>, known: set<Name>)
    requires Distinct(names)
    ensures Distinct(Fresh(names, known))
  {
    if names != [] {
      FreshDistinct(names[1..], known);
      FreshIs(names[1..], known);
      assert names[0] !in Fresh(names[1..], known);
    }
  }

  lemma {:induction false} NewRequestsMember(first: nat, names: seq<Name>)
    ensures forall r :: r in NewRequests(first, names) <==>
                          && r.AskGet? && first <= r.ctx < first + |names|
                          && r.name == names[r.ctx - first] && r.cause == Dummy
    decreases |names|
  {
    if names != [] {
      NewRequestsMember(first + 1, names[1..]);
      var rs := NewRequests(first, names);
      assert forall r :: r in rs <==> r == rs[0] || r in NewRequests(first + 1, names[1..]);
    }
  }

  /** A listing opens a first read for each name that is not cached, and no other. */
  lemma DeliverListingActive(s: State)
    requires ListingOk(s) && s.inbox != [] && s.inbox[0].ListReply? && s.inbox[0].names.Some?
    ensures var t := Apply(s, Deliver);
            var unseen := Fresh(s.inbox[0].names.value, Known(s.client.cache));
            && (forall x: nat, c :: ArmedFor(t, x, c) <==> ArmedFor(s, x, c))
            && (forall x: nat, c :: Rereading(t, x, c) <==> Rereading(s, x, c))
            && (forall x: nat, c :: FirstRead(t, x, c) <==>
                  || FirstRead(s, x, c)
                  || (s.client.next <= x < s.client.next + |unseen| && c == unseen[x - s.client.next]))
            && (forall r :: r in s.requests ==> !r.AskList?)
  {
    HeadFits(s);
    NoListingAsked(s);
    forall x: nat, c { ListingActive(s, x, c); }
  }

  lemma ListingActive(s: State, x: nat, c: Name)
    requires s.inbox != [] && s.inbox[0].ListReply? && s.inbox[0].names.Some?
    requires s.inbox[0].ctx in s.client.contexts && s.client.contexts[s.inbox[0].ctx].ListCtx?
    ensures var t := Apply(s, Deliver);
            var unseen := Fresh(s.inbox[0].names.value, Known(s.client.cache));
            && (ArmedFor(t, x, c) <==> ArmedFor(s, x, c)) && (Rereading(t, x, c) <==> Rereading(s, x, c))
            && (FirstRead(t, x, c) <==>
                  || FirstRead(s, x, c)
                  || (s.client.next <= x < s.client.next + |unseen| && c == unseen[x - s.client.next]))
  {
    var unseen := Fresh(s.inbox[0].names.value, Known(s.client.cache));
    ReadsOpened(s.requests, s.client.next, unseen, x, c);
    assert Fire(x, OnChild(c), Changed) in s.inbox <==> Fire(x, OnChild(c), Changed) in s.inbox[1..];
  }

  lemma ReadsOpened(q: seq<Request>, first: nat, unseen: seq<Name>, x: nat, c: Name)
    ensures AskGet(x, c, Changed) in q + NewRequests(first, unseen) <==> AskGet(x, c, Changed) in q
    ensures AskGet(x, c, Dummy) in q + NewRequests(first, unseen) <==>
              AskGet(x, c, Dummy) in q || (first <= x < first + |unseen| && c == unseen[x - first])
  {
    NewRequestsMember(first, unseen);
    InEither(q, NewRequests(first, unseen), AskGet(x, c, Changed));
    InEither(q, NewRequests(first, unseen), AskGet(x, c, Dummy));
  }

  lemma InEither<T>(p: seq<T>, q: seq<T>, x: T)
    ensures x in p + q <==> x in p || x in q
  {}

  /** While a listing is at the head of the queue no other is asked for. */
  lemma NoListingAsked(s: State)
    requires ListingOk(s) && s.inbox != [] && s.inbox[0].ListReply?
    ensures forall r :: r in s.requests ==> !r.AskList?
  {
    HeadFits(s);
    forall r | r in s.requests ensures !r.AskList? {
      RequestsOfMember(s.requests, r.ctx, r);
      assert ContextOk(s, r.ctx);
    }
  }

  /** A listing is the only one in the queue. */
  lemma NoMoreListings(s: State)
    requires ListingOk(s) && s.inbox != [] && s.inbox[0].ListReply?
    ensures forall m :: m in s.inbox[1..] ==> !m.ListReply?
  {
    var x := s.inbox[0].ctx;
    ListerOfReply(s, s.inbox[0]);
    OnlyFiresFollow(s);
    forall m | m in s.inbox[1..] ensures !m.ListReply? {
      if m.ListReply? {
        ListerOfReply(s, m);
        assert m.ctx == x;
        MessagesOfMember(s.inbox[1..], x, m);
      }
    }
  }

  /** Behind a reply its context has at most an event queued. */
  lemma OnlyFiresFollow(s: State)
    requires ContextsOk(s) && s.inbox != [] && s.inbox[0].ListReply?
    ensures forall m :: m in MessagesOf(s.inbox[1..], s.inbox[0].ctx) ==> m.Fire?
  {
    HeadFits(s);
    assert ContextOk(s, s.inbox[0].ctx);
  }

  lemma DeliverListingCovers(s: State)
    requires Disciplined(s) && s.inbox != [] && s.inbox[0].ListReply? && s.inbox[0].names.Some?
    ensures var t := Apply(s, Deliver);
            var names := s.inbox[0].names.value;
            forall c :: Covered(t, c) <==> Covered(s, c) || (c in names && c !in Known(s.client.cache))
  {
    var t := Apply(s, Deliver);
    var names := s.inbox[0].names.value;
    var unseen := Fresh(names, Known(s.client.cache));
    DeliverListingActive(s);
    FreshIs(names, Known(s.client.cache));
    assert forall x: nat, c :: ActiveFor(s, x, c) ==> ActiveFor(t, x, c);
    forall c | c in unseen ensures Covered(t, c) {
      var i :| 0 <= i < |unseen| && unseen[i] == c;
      assert ActiveFor(t, s.client.next + i, c);
    }
    assert forall x: nat, c :: ActiveFor(t, x, c) ==>
      ActiveFor(s, x, c) || (s.client.next <= x < s.client.next + |unseen| && c == unseen[x - s.client.next]);
    forall x: nat, c | ActiveFor(t, x, c) && !ActiveFor(s, x, c) ensures c in unseen {}
  }

  lemma DeliverListingKeepsUnique(s: State)
    requires Disciplined(s) && s.inbox != [] && s.inbox[0].ListReply? && s.inbox[0].names.Some?
    ensures UniqueActive(Apply(s, Deliver))
  {
    var t, known := Apply(s, Deliver), Known(s.client.cache);
    var names := s.inbox[0].names.value;
    var unseen := Fresh(names, known);
    DeliverListingActive(s);
    HeadFits(s);
    FreshIs(names, known);
    FreshDistinct(names, known);
    forall x: nat, y: nat, c | ActiveFor(t, x, c) && ActiveFor(t, y, c) ensures x == y {
      if c in unseen {
        UncachedUnseen(s, c);
        assert !ActiveFor(s, x, c) && !ActiveFor(s, y, c);
      } else {
        assert ActiveFor(s, x, c) && ActiveFor(s, y, c);
      }
    }
  }

  /** A name that is not cached has no active context and is not in the user's map. */
  lemma UncachedUnseen(s: State, c: Name)
    requires Monitored(s) && c !in Known(s.client.cache)
    ensures !Covered(s, c) && c !in View(s)
  {}

  lemma DeliverListingKeepsMonitored(s: State)
    requires Disciplined(s) && s.inbox != [] && s.inbox[0].ListReply? && s.inbox[0].names.Some?
    ensures Monitored(Apply(s, Deliver))
  {
    var t := Apply(s, Deliver);
    var names := s.inbox[0].names.value;
    var unseen := Fresh(names, Known(s.client.cache));
    DeliverView(s);
    DeliverListingActive(s);
    DeliverListingKeepsUnique(s);
    assert ArmedIsCurrent(t) && RereadExists(t);
    assert FirstReadUnseen(t) by {
      FreshIs(names, Known(s.client.cache));
      forall c | c in unseen ensures c !in View(s) { UncachedUnseen(s, c); }
    }
    DeliverListingKnown(s);
  }

  lemma DeliverListingKnown(s: State)
    requires Disciplined(s) && s.inbox != [] && s.inbox[0].ListReply? && s.inbox[0].names.Some?
    ensures var t := Apply(s, Deliver);
            ViewCovered(t) && ActiveKnown(t) && ChildrenFound(t) && ReadsBeforeListing(t.requests)
  {
    var t := Apply(s, Deliver);
    var names := s.inbox[0].names.value;
    DeliverView(s);
    DeliverListingActive(s);
    DeliverListingCovers(s);
    HeadFits(s);
    NoMoreListings(s);
    ListedNone(t.client.cache, t.inbox);
    assert KnownSoon(t) == Elements(names) == Known(t.client.cache);
    FreshIs(names, Known(s.client.cache));
    assert ActiveKnown(t) by {
      forall x: nat, c | ActiveFor(t, x, c) ensures c in names {
        assert Covered(t, c);
        if Covered(s, c) {
          var y: nat :| ActiveFor(s, y, c);
        }
      }
    }
    assert forall r :: r in t.requests ==> !r.AskList? by {
      NewRequestsMember(s.client.next, Fresh(names, Known(s.client.cache)));
    }
  }

  // ---------- the theorem ----------

  lemma StepKeepsDisciplined(s: State, step: Step)
    requires Disciplined(s) && Enabled(s, step) && Safe(s, step)
    ensures Disciplined(Apply(s, step))
  {
    StepKeepsListing(s, step);
    var sv := s.server;
    match step
    case CreateParent(fired) =>
      var s1 := s.(server := sv.(parent := true));
      assert SameActive(s, s1) && View(s1) == View(s);
      SameCovered(s, s1);
      OtherTriggerKeepsMonitored(s1, OnParent, Created, fired);
    case SetParent(fired) => OtherTriggerKeepsMonitored(s, OnParent, Changed, fired);
    case CreateChild(name, data, listFired) =>
      CreateKeepsMonitored(s, name, data);
      var s1 := s.(server := sv.(children := sv.children[name := data]));
      OtherTriggerKeepsMonitored(s1, OnChildren, Child, listFired);
    case SetChild(name, data, fired) => SetKeepsMonitored(s, name, data, fired);
    case DeleteChild(name, fired, listFired) =>
      DeleteKeepsMonitored(s, name, fired);
      var gone := s.(server := sv.(children := sv.children - {name}));
      OtherTriggerKeepsMonitored(Trigger(gone, OnChild(name), Deleted, fired), OnChildren, Child, listFired);
    case Serve(order) =>
      match s.requests[0] {
        case AskExists(_, _) => ServeExistsKeepsMonitored(s, order);
        case AskList(_) => ServeListKeepsMonitored(s, order);
        case AskGet(_, name, _) =>
          if name in sv.children { ServeFoundKeepsMonitored(s, order); } else { ServeMissedKeepsMonitored(s, order); }
      }
    case Deliver =>
      var m := s.inbox[0];
      if m.Fire? { DeliverFireKeepsMonitored(s); }
      else if m.ListReply? && m.names.Some? { DeliverListingKeepsMonitored(s); }
      else { DeliverReplyKeepsMonitored(s); }
  }

  lemma {:induction false} RunKeepsDisciplined(s: State, steps: seq<Step>)
    requires Disciplined(s) && DisciplinedRun(s, steps)
    ensures IsRun(s, steps) && Disciplined(End(s, steps))
    decreases |steps|
  {
    if steps != [] {
      StepKeepsDisciplined(s, steps[0]);
      RunKeepsDisciplined(Apply(s, steps[0]), steps[1..]);
    }
  }

  /** The user's map is the server's, and every child has exactly one armed context. */
  ghost predicate Converged(s: State) {
    && Replay(s.client.log) == s.server.children
    && (forall c :: c in s.server.children ==> exists x: nat :: ArmedFor(s, x, c))
    && (forall x: nat, y: nat, c :: ArmedFor(s, x, c) && ArmedFor(s, y, c) ==> x == y && c in s.server.children)
  }

  lemma QuietConverges(s: State)
    requires Disciplined(s) && Quiescent(s)
    ensures Converged(s)
  {
    assert View(s) == Replay(s.client.log);
    assert forall x: nat, c :: ActiveFor(s, x, c) <==> ArmedFor(s, x, c);
    forall c | c in s.server.children ensures Covered(s, c) {
      assert HasLister(s.client);
      var x :| x in s.client.contexts && s.client.contexts[x].ListCtx?;
      assert ListerOk(s, x);
    }
    forall c | c in View(s) ensures c in s.server.children && View(s)[c] == s.server.children[c] {
      assert Covered(s, c);
    }
    forall c | c in s.server.children ensures c in View(s) {
      var x: nat :| ActiveFor(s, x, c);
    }
  }

  /** In every quiescent state of a disciplined run, replaying the notifications gives the server's
      child-to-value map and each child has exactly one armed context. */
  lemma Convergence(s: State, steps: seq<Step>)
    requires Init(s) && DisciplinedRun(s, steps)
    ensures IsRun(s, steps)
    ensures Quiescent(End(s, steps)) ==> Converged(End(s, steps))
  {
    InitDisciplined(s);
    RunKeepsDisciplined(s, steps);
    if Quiescent(End(s, steps)) { QuietConverges(End(s, steps)); }
  }
}
