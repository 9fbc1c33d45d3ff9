/**
 * The discipline of `SubWatchConvergence` is exact: from a state of a disciplined run, a write by
 * another client is safe if and only if letting the messages drain after it always ends converged.
 * Draining always ends, so the right-hand side is never empty.
 */
module SubWatchExact {
  import opened Seqs
  import opened Zk
  import opened SubWatch
  import opened SubWatchContexts
  import opened SubWatchListing
  import opened SubWatchConvergence

  // ---------- draining ends ----------

  datatype Kind = OfExists | OfList | OfGet

  function RequestKind(r: Request): Kind {
    match r case AskExists(_, _) => OfExists case AskList(_) => OfList case AskGet(_, _, _) => OfGet
  }

  function MsgKind(m: Msg): Kind {
    match m
    case ExistsReply(_, _, _) => OfExists
    case ListReply(_, _) => OfList
    case GetReply(_, _, _, _) => OfGet
    case Fire(_, target, _) => match target case OnParent => OfExists case OnChildren => OfList case OnChild(_) => OfGet
  }

  /** Steps still to come from one kind of traffic: an event, then a request, then a reply. */
  function RequestWork(q: seq<Request>, k: Kind): nat {
    if q == [] then 0 else (if RequestKind(q[0]) == k then 2 else 0) + RequestWork(q[1..], k)
  }

  function MsgWork(q: seq<Msg>, k: Kind): nat {
    if q == [] then 0
    else (if MsgKind(q[0]) != k then 0 else if q[0].Fire? then 3 else 1) + MsgWork(q[1..], k)
  }

  function Work(s: State, k: Kind): nat { RequestWork(s.requests, k) + MsgWork(s.inbox, k) }

  lemma {:induction false} RequestWorkAppend(p: seq<Request>, q: seq<Request>, k: Kind)
    ensures RequestWork(p + q, k) == RequestWork(p, k) + RequestWork(q, k)
  {
    if p == [] { assert p + q == q; } else { assert (p + q)[1..] == p[1..] + q; RequestWorkAppend(p[1..], q, k); }
  }

  lemma {:induction false} MsgWorkAppend(p: seq<Msg>, q: seq<Msg>, k: Kind)
    ensures MsgWork(p + q, k) == MsgWork(p, k) + MsgWork(q, k)
  {
    if p == [] { assert p + q == q; } else { assert (p + q)[1..] == p[1..] + q; MsgWorkAppend(p[1..], q, k); }
  }

  lemma {:induction false} NewRequestsWork(first: nat, names: seq<Name>, k: Kind)
    ensures k != OfGet ==> RequestWork(NewRequests(first, names), k) == 0
    decreases |names|
  {
    if names != [] {
      NewRequestsWork(first + 1, names[1..], k);
      assert NewRequests(first, names)[1..] == NewRequests(first + 1, names[1..]);
    }
  }

  predicate Less(s: State, t: State) {
    || Work(s, OfExists) < Work(t, OfExists)
    || (Work(s, OfExists) == Work(t, OfExists) && Work(s, OfList) < Work(t, OfList))
    || (Work(s, OfExists) == Work(t, OfExists) && Work(s, OfList) == Work(t, OfList) && Work(s, OfGet) < Work(t, OfGet))
  }

  lemma ServeWorks(s: State, order: seq<Name>)
    requires Enabled(s, Serve(order))
    ensures Less(Apply(s, Serve(order)), s)
  {
    var reply := Answer(s.server, s.requests[0], order).0;
    forall k ensures MsgWork(s.inbox + [reply], k) == MsgWork(s.inbox, k) + (if MsgKind(reply) == k then 1 else 0) {
      MsgWorkAppend(s.inbox, [reply], k);
      assert [reply][1..] == [];
    }
  }

  lemma DeliverWorks(s: State)
    requires ContextsOk(s) && s.inbox != []
    ensures Less(Apply(s, Deliver), s)
  {
    var m := s.inbox[0];
    var out := Handle(s.client, m).1;
    HeadFits(s);
    forall k { RequestWorkAppend(s.requests, out, k); }
    if m.ListReply? {
      ListingSends(s.client, m);
    } else {
      ReplySends(s.client, m);
      forall k { WorkOfOne(out, k); }
    }
  }

  /** A listing makes the client send reads only. */
  lemma ListingSends(c: Client, m: Msg)
    requires m.ListReply?
    ensures forall k :: k != OfGet ==> RequestWork(Handle(c, m).1, k) == 0
  {
    if m.names.Some? {
      forall k { NewRequestsWork(c.next, Fresh(m.names.value, Known(c.cache)), k); }
    }
  }

  lemma WorkOfOne(out: seq<Request>, k: Kind)
    requires |out| <= 1
    ensures RequestWork(out, k) == if out != [] && RequestKind(out[0]) == k then 2 else 0
  {
    if out != [] { assert out[1..] == []; }
  }

  /** A reply makes the client send at most a listing request, an event at most one of its own kind. */
  lemma ReplySends(c: Client, m: Msg)
    requires !m.ListReply? && m.ctx in c.contexts && (ReplyFits(c.contexts[m.ctx], m) || FireFits(c.contexts[m.ctx], m))
    ensures var out := Handle(c, m).1;
            && |out| <= 1
            && (out != [] ==> if m.Fire? then RequestKind(out[0]) == MsgKind(m) else m.ExistsReply? && out[0].AskList?)
  {}

  lemma {:induction false} Enumerate(names: set<Name>) returns (order: seq<Name>)
    ensures Distinct(order) && Elements(order) == names
  {
    if names == {} {
      order := [];
    } else {
      var c :| c in names;
      var rest := Enumerate(names - {c});
      assert c !in Elements(rest);
      order := [c] + rest;
      assert Elements(order) == {c} + Elements(rest);
    }
  }

  /** Only the server answering and the client handling, no write. */
  ghost predicate Drains(s: State, steps: seq<Step>) {
    IsRun(s, steps) && forall i :: 0 <= i < |steps| ==> steps[i].Serve? || steps[i].Deliver?
  }

  /** From every reachable state the messages drain to a quiescent state. */
  lemma {:induction false} DrainEnds(s: State) returns (steps: seq<Step>)
    requires ContextsOk(s)
    ensures Drains(s, steps) && Quiescent(End(s, steps))
    decreases Work(s, OfExists), Work(s, OfList), Work(s, OfGet)
  {
    if Quiescent(s) {
      steps := [];
    } else {
      var step: Step;
      if s.inbox != [] {
        step := Deliver;
        DeliverWorks(s);
      } else {
        var order := Enumerate(s.server.children.Keys);
        step := Serve(order);
        ServeWorks(s, order);
      }
      StepKeepsContexts(s, step);
      var rest := DrainEnds(Apply(s, step));
      steps := [step] + rest;
      assert steps[1..] == rest;
    }
  }

  // ---------- an unsafe write never recovers ----------

  /** The user still holds a child the server has lost. */
  predicate Lost(s: State, c: Name) {
    c !in s.server.children && c in View(s)
  }

  /** The server holds a child the user lacks and the client takes for known. */
  ghost predicate Skipped(s: State, c: Name) {
    && c in s.server.children && c !in View(s)
    && !Covered(s, c) && c in KnownSoon(s) && c !in Pending(s)
  }

  lemma DrainKeepsLost(s: State, step: Step, c: Name)
    requires ContextsOk(s) && Enabled(s, step) && (step.Serve? || step.Deliver?) && Lost(s, c)
    ensures Lost(Apply(s, step), c)
  {
    if step.Deliver? { DeliverView(s); } else { QueueOne(s, Answer(s.server, s.requests[0], step.order).0); }
  }

  lemma ServeKeepsSkipped(s: State, order: seq<Name>, c: Name)
    requires ListingOk(s) && Enabled(s, Serve(order)) && Skipped(s, c)
    ensures Skipped(Apply(s, Serve(order)), c)
  {
    var t, r := Apply(s, Serve(order)), s.requests[0];
    var reply := Answer(s.server, r, order).0;
    QueueOne(s, reply);
    assert [reply][1..] == [];
    if r.AskGet? {
      ServeGetActive(s, order);
      assert r.name != c by { assert !ActiveFor(s, r.ctx, c); }
      assert forall x: nat :: ActiveFor(t, x, c) ==> ActiveFor(s, x, c);
    } else {
      ServeOtherActive(s, order);
      SameCovered(s, t);
      if r.AskList? { ServeListKnown(s, order); }
    }
  }

  lemma DeliverKeepsSkipped(s: State, c: Name)
    requires ListingOk(s) && s.inbox != [] && Skipped(s, c)
    ensures Skipped(Apply(s, Deliver), c)
  {
    var t, m := Apply(s, Deliver), s.inbox[0];
    DeliverView(s);
    if m.ListReply? && m.names.Some? {
      DeliverListingActive(s);
      FreshIs(m.names.value, Known(s.client.cache));
      assert forall x: nat :: ActiveFor(t, x, c) ==> ActiveFor(s, x, c);
    } else {
      if m.Fire? { FireSameActive(s); } else { ReplySameActive(s); }
      SameCovered(s, t);
    }
  }

  lemma {:induction false} DrainKeepsBad(s: State, steps: seq<Step>, c: Name)
    requires ListingOk(s) && Drains(s, steps) && (Lost(s, c) || Skipped(s, c))
    ensures if Lost(s, c) then Lost(End(s, steps), c) else Skipped(End(s, steps), c)
    decreases |steps|
  {
    if steps != [] {
      var step := steps[0];
      StepKeepsListing(s, step);
      if Lost(s, c) { DrainKeepsLost(s, step, c); }
      else if step.Deliver? { DeliverKeepsSkipped(s, c); }
      else { ServeKeepsSkipped(s, step.order, c); }
      DrainKeepsBad(Apply(s, step), steps[1..], c);
    }
  }

  lemma UnsafeCreateSkips(s: State, step: Step)
    requires Disciplined(s) && step.CreateChild? && Enabled(s, step) && !SafeCreate(s, step.name)
    ensures Skipped(Apply(s, step), step.name)
  {
    var s1 := s.(server := s.server.(children := s.server.children[step.name := step.data]));
    OtherTrigger(s1, OnChildren, Child, step.listFired);
    assert SameActive(s, s1) && View(s1) == View(s);
    SameCovered(s, Apply(s, step));
  }

  /** While a child is being read again its watch is not armed. */
  lemma RereadingFiresNone(s: State, x: nat, c: Name, fired: seq<nat>)
    requires Disciplined(s) && Rereading(s, x, c) && AllArmed(s.server.armed, OnChild(c), fired)
    ensures fired == []
  {
    if fired != [] {
      var y := fired[0];
      assert y in fired;
      assert ContextOk(s, y) && ContextOk(s, x);
      assert ActiveFor(s, y, c) && ActiveFor(s, x, c);
      RequestsOfMember(s.requests, x, AskGet(x, c, Changed));
      MessagesOfMember(s.inbox, x, Fire(x, OnChild(c), Changed));
    }
  }

  lemma UnsafeDeleteLoses(s: State, step: Step)
    requires Disciplined(s) && step.DeleteChild? && Enabled(s, step) && !SafeDelete(s, step.name)
    ensures Lost(Apply(s, step), step.name)
  {
    var c := step.name;
    var s1 := s.(server := s.server.(children := s.server.children - {c}));
    var s2 := Trigger(s1, OnChild(c), Deleted, step.fired);
    var x: nat :| Rereading(s, x, c);
    RereadingFiresNone(s, x, c, step.fired);
    ChildTrigger(s1, c, Deleted, step.fired);
    OtherTrigger(s2, OnChildren, Child, step.listFired);
    assert View(s1) == View(s);
  }

  lemma {:induction false} DrainIsDisciplined(s: State, steps: seq<Step>)
    requires Drains(s, steps)
    ensures DisciplinedRun(s, steps)
    decreases |steps|
  {
    if steps != [] { DrainIsDisciplined(Apply(s, steps[0]), steps[1..]); }
  }

  // ---------- the theorem ----------

  /** Whatever way the messages drain, the user's map ends equal to the server's. */
  ghost predicate AlwaysConverges(s: State) {
    forall steps :: Drains(s, steps) && Quiescent(End(s, steps)) ==> Converged(End(s, steps))
  }

  ghost predicate NeverConverges(s: State) {
    forall steps :: Drains(s, steps) && Quiescent(End(s, steps)) ==> !Converged(End(s, steps))
  }

  /** After a disciplined run, a step is safe if and only if every way of letting the messages
      drain after it ends converged; after an unsafe step none does. */
  lemma SafeExactlyWhenConverging(init: State, past: seq<Step>, step: Step)
    requires Init(init) && DisciplinedRun(init, past) && IsRun(init, past)
    requires Enabled(End(init, past), step)
    ensures var s := End(init, past);
            && (Safe(s, step) <==> AlwaysConverges(Apply(s, step)))
            && (!Safe(s, step) <==> NeverConverges(Apply(s, step)))
  {
    var s := End(init, past);
    InitDisciplined(init);
    RunKeepsDisciplined(init, past);
    var t := Apply(s, step);
    StepKeepsListing(s, step);
    var drain := DrainEnds(t);
    if Safe(s, step) {
      StepKeepsDisciplined(s, step);
      forall steps | Drains(t, steps) && Quiescent(End(t, steps)) ensures Converged(End(t, steps)) {
        DrainIsDisciplined(t, steps);
        RunKeepsDisciplined(t, steps);
        QuietConverges(End(t, steps));
      }
    } else {
      if step.CreateChild? { UnsafeCreateSkips(s, step); } else { UnsafeDeleteLoses(s, step); }
      forall steps | Drains(t, steps) && Quiescent(End(t, steps)) ensures !Converged(End(t, steps)) {
        DrainKeepsBad(t, steps, step.name);
      }
    }
  }

  /** However the messages drain, the user's map lacks a child that the server holds. */
  ghost predicate NeverHeardOf(s: State, c: Name) {
    forall steps :: Drains(s, steps) && Quiescent(End(s, steps)) ==>
      c in End(s, steps).server.children && c !in Replay(End(s, steps).client.log)
  }

  /** However the messages drain, the user's map keeps a child that the server has lost. */
  ghost predicate NeverReportedGone(s: State, c: Name) {
    forall steps :: Drains(s, steps) && Quiescent(End(s, steps)) ==>
      c !in End(s, steps).server.children && c in Replay(End(s, steps).client.log)
  }

  /** What an unsafe step does to the child, in every drain. */
  lemma UnsafeStepMeans(init: State, past: seq<Step>, step: Step)
    requires Init(init) && DisciplinedRun(init, past) && IsRun(init, past)
    requires Enabled(End(init, past), step) && !Safe(End(init, past), step)
    ensures var t := Apply(End(init, past), step);
            if step.CreateChild? then NeverHeardOf(t, step.name) else NeverReportedGone(t, step.name)
  {
    var s := End(init, past);
    InitDisciplined(init);
    RunKeepsDisciplined(init, past);
    StepKeepsListing(s, step);
    var t := Apply(s, step);
    if step.CreateChild? { UnsafeCreateSkips(s, step); } else { UnsafeDeleteLoses(s, step); }
    forall steps | Drains(t, steps) && Quiescent(End(t, steps))
      ensures if step.CreateChild? then Skipped(End(t, steps), step.name) else Lost(End(t, steps), step.name)
    {
      DrainKeepsBad(t, steps, step.name);
    }
  }

  /** In a quiescent state every write is safe: deletes and re-creations that wait for the
      messages to drain need no further care. */
  lemma QuietWritesAreSafe(s: State, step: Step)
    requires Disciplined(s) && Quiescent(s) && Enabled(s, step)
    ensures Safe(s, step)
  {
    if step.CreateChild? {
      assert HasLister(s.client);
      var x :| x in s.client.contexts && s.client.contexts[x].ListCtx?;
      assert ListerOk(s, x);
    }
  }

  /** Creating a child under a name that was never used is safe at any time. */
  lemma {:induction false} NewNamesAreSafe(s: State, steps: seq<Step>, c: Name)
    requires ListingOk(s) && IsRun(s, steps) && c !in KnownSoon(s)
    requires forall k :: 0 <= k <= |steps| && IsRun(s, steps[..k]) ==> c !in End(s, steps[..k]).server.children
    ensures SafeCreate(End(s, steps), c)
    decreases |steps|
  {
    if steps != [] {
      var t := Apply(s, steps[0]);
      StepKeepsListing(s, steps[0]);
      assert c !in s.server.children by { assert End(s, steps[..0]) == s; }
      StepKeepsUnlisted(s, steps[0], c);
      forall k | 0 <= k <= |steps[1..]| && IsRun(t, steps[1..][..k])
        ensures c !in End(t, steps[1..][..k]).server.children
      {
        var pre := steps[..k + 1];
        assert pre[0] == steps[0] && pre[1..] == steps[1..][..k];
        assert IsRun(s, pre) && End(s, pre) == End(t, steps[1..][..k]);
      }
      NewNamesAreSafe(t, steps[1..], c);
    }
  }

  lemma StepKeepsUnlisted(s: State, step: Step, c: Name)
    requires ListingOk(s) && Enabled(s, step) && c !in KnownSoon(s) && c !in s.server.children
    ensures c !in KnownSoon(Apply(s, step))
  {
    var sv := s.server;
    match step
    case CreateParent(fired) => TriggerKeepsListed(s.(server := sv.(parent := true)), OnParent, Created, fired);
    case SetParent(fired) => TriggerKeepsListed(s, OnParent, Changed, fired);
    case CreateChild(name, data, listFired) =>
      TriggerKeepsListed(s.(server := sv.(children := sv.children[name := data])), OnChildren, Child, listFired);
    case SetChild(name, data, fired) =>
      TriggerKeepsListed(s.(server := sv.(children := sv.children[name := data])), OnChild(name), Changed, fired);
    case DeleteChild(name, fired, listFired) =>
      var gone := s.(server := sv.(children := sv.children - {name}));
      TriggerKeepsListed(gone, OnChild(name), Deleted, fired);
      TriggerKeepsListed(Trigger(gone, OnChild(name), Deleted, fired), OnChildren, Child, listFired);
    case Serve(order) =>
      var reply := Answer(sv, s.requests[0], order).0;
      QueueOne(s, reply);
      assert [reply][1..] == [];
      if s.requests[0].AskList? { ServeListKnown(s, order); }
    case Deliver => DeliverView(s);
  }

  // ---------- the two ways to lose, as concrete runs ----------

  function OneChild(): State {
    State(Server(true, map["a" := None], map[]), [AskExists(0, Dummy)], [],
          Client(1, map[0 := ExistsCtx(Dummy)], None, []))
  }

  /** Child "a" exists, is reported and has its watch armed. */
  function Watching(armed: map<nat, Target>, inbox: seq<Msg>): State {
    State(Server(true, map["a" := None], armed), [], inbox,
          Client(3, map[0 := ExistsCtx(Dummy), 1 := ListCtx, 2 := GetCtx("a", Dummy)], Some({"a"}),
                 [ChangedNote("a", None)]))
  }

  const ALL_ARMED: map<nat, Target> := map[0 := OnParent, 1 := OnChildren, 2 := OnChild("a")]

  const START := [Serve(["a"]), Deliver, Serve(["a"]), Deliver, Serve(["a"]), Deliver]

  lemma {:induction false} RunAppend(s: State, p: seq<Step>, q: seq<Step>)
    requires IsRun(s, p) && IsRun(End(s, p), q)
    ensures IsRun(s, p + q) && End(s, p + q) == End(End(s, p), q)
    decreases |p|
  {
    if p == [] {
      assert p + q == q;
    } else {
      assert (p + q)[1..] == p[1..] + q;
      RunAppend(Apply(s, p[0]), p[1..], q);
    }
  }

  lemma OneStep(s: State, step: Step)
    requires Enabled(s, step)
    ensures IsRun(s, [step]) && End(s, [step]) == Apply(s, step)
  {
    assert [step][1..] == [];
    assert IsRun(Apply(s, step), []);
  }

  lemma TwoSteps(s: State, a: Step, b: Step)
    requires Enabled(s, a) && Enabled(Apply(s, a), b)
    ensures IsRun(s, [a, b]) && End(s, [a, b]) == Apply(Apply(s, a), b)
  {
    OneStep(s, a);
    OneStep(Apply(s, a), b);
    assert [a, b] == [a] + [b];
    RunAppend(s, [a], [b]);
  }

  lemma StartReports()
    ensures Init(OneChild()) && IsRun(OneChild(), START)
    ensures End(OneChild(), START) == Watching(ALL_ARMED, [])
  {
    var s, go := OneChild(), [Serve(["a"]), Deliver];
    ChecksParent();
    ListsChild();
    Reads();
    RunAppend(s, go, go);
    RunAppend(s, go + go, go);
    assert START == go + go + go;
  }

  /** The parent has been found and the listing requested. */
  function Found(): State {
    State(Server(true, map["a" := None], map[0 := OnParent]), [AskList(1)], [],
          Client(2, map[0 := ExistsCtx(Dummy), 1 := ListCtx], None, []))
  }

  /** The listing has been handled and the child's value requested. */
  function Named(): State {
    State(Server(true, map["a" := None], map[0 := OnParent, 1 := OnChildren]), [AskGet(2, "a", Dummy)], [],
          Client(3, map[0 := ExistsCtx(Dummy), 1 := ListCtx, 2 := GetCtx("a", Dummy)], Some({"a"}), []))
  }

  lemma ListsOne()
    ensures Lists(["a"], map["a" := None]) && Fresh(["a"], {}) == ["a"] && Elements(["a"]) == {"a"}
    ensures NewContexts(2, ["a"]) == map[2 := GetCtx("a", Dummy)] && NewRequests(2, ["a"]) == [AskGet(2, "a", Dummy)]
  {
    var order := ["a"];
    assert order[1..] == [];
    assert Elements(order) == {"a"};
    assert NewContexts(3, order[1..]) == map[] && NewRequests(3, order[1..]) == [];
  }

  lemma ChecksParent()
    ensures var go := [Serve(["a"]), Deliver]; IsRun(OneChild(), go) && End(OneChild(), go) == Found()
  {
    ListsOne();
    TwoSteps(OneChild(), Serve(["a"]), Deliver);
  }

  lemma ListsChild()
    ensures var go := [Serve(["a"]), Deliver]; IsRun(Found(), go) && End(Found(), go) == Named()
  {
    ListsOne();
    TwoSteps(Found(), Serve(["a"]), Deliver);
  }

  lemma Reads()
    ensures var go := [Serve(["a"]), Deliver]; IsRun(Named(), go) && End(Named(), go) == Watching(ALL_ARMED, [])
  {
    ListsOne();
    TwoSteps(Named(), Serve(["a"]), Deliver);
  }

  lemma {:induction false} DisciplinedAppend(s: State, p: seq<Step>, step: Step)
    requires DisciplinedRun(s, p) && IsRun(s, p) && Enabled(End(s, p), step) && Safe(End(s, p), step)
    ensures DisciplinedRun(s, p + [step]) && IsRun(s, p + [step]) && End(s, p + [step]) == Apply(End(s, p), step)
    decreases |p|
  {
    OneStep(End(s, p), step);
    RunAppend(s, p, [step]);
    if p == [] {
      assert p + [step] == [step];
    } else {
      assert (p + [step])[1..] == p[1..] + [step];
      DisciplinedAppend(Apply(s, p[0]), p[1..], step);
    }
  }

  lemma StartIsDisciplined()
    ensures Init(OneChild()) && DisciplinedRun(OneChild(), START) && IsRun(OneChild(), START)
    ensures Disciplined(End(OneChild(), START)) && End(OneChild(), START) == Watching(ALL_ARMED, [])
  {
    StartReports();
    assert Drains(OneChild(), START);
    DrainIsDisciplined(OneChild(), START);
    InitDisciplined(OneChild());
    RunKeepsDisciplined(OneChild(), START);
  }

  const DROP := DeleteChild("a", [2], [1])
  const AGAIN := CreateChild("a", None, [])
  const WRITE := SetChild("a", Some("x"), [2])
  const LATE := DeleteChild("a", [], [1])

  lemma AfterDrop()
    ensures Enabled(Watching(ALL_ARMED, []), DROP)
    ensures var t := Apply(Watching(ALL_ARMED, []), DROP);
            Enabled(t, AGAIN) && !SafeCreate(t, "a")
  {
    DropEnabled();
    Dropped();
    PassedOver(Apply(Watching(ALL_ARMED, []), DROP));
  }

  lemma DropEnabled()
    ensures Enabled(Watching(ALL_ARMED, []), DROP)
  {}

  /** The child is gone, cached, not about to be monitored, and nothing reports on it. */
  lemma PassedOver(t: State)
    requires t.server == Server(true, map[], map[0 := OnParent]) && t.requests == []
    requires t.inbox == [Fire(2, OnChild("a"), Deleted), Fire(1, OnChildren, Child)]
    requires t.client == Watching(ALL_ARMED, []).client
    ensures Enabled(t, AGAIN) && !SafeCreate(t, "a")
  {
    ListedNone(t.client.cache, t.inbox);
    ToMonitorNone(t.client.cache, t.inbox);
  }

  /** The state after the deletion. */
  lemma Dropped()
    requires Enabled(Watching(ALL_ARMED, []), DROP)
    ensures var t := Apply(Watching(ALL_ARMED, []), DROP);
            && t.server == Server(true, map[], map[0 := OnParent]) && t.requests == []
            && t.inbox == [Fire(2, OnChild("a"), Deleted), Fire(1, OnChildren, Child)]
            && t.client == Watching(ALL_ARMED, []).client
  {
    OneFire(2, OnChild("a"), Deleted);
    OneFire(1, OnChildren, Child);
    var armed := Disarm(ALL_ARMED, OnChild("a"));
    assert armed == map[0 := OnParent, 1 := OnChildren];
    assert Disarm(armed, OnChildren) == map[0 := OnParent];
  }

  lemma OneFire(x: nat, target: Target, event: Event)
    ensures Fires([x], target, event) == [Fire(x, target, event)]
  {
    assert [x][1..] == [];
  }

  lemma AfterWrite()
    ensures Enabled(Watching(ALL_ARMED, []), WRITE)
    ensures var t := Apply(Watching(ALL_ARMED, []), WRITE);
            Enabled(t, LATE) && !SafeDelete(t, "a")
  {
    var t := Apply(Watching(ALL_ARMED, []), WRITE);
    assert Fires([2], OnChild("a"), Changed) == [Fire(2, OnChild("a"), Changed)];
    assert t.inbox == [Fire(2, OnChild("a"), Changed)];
    assert Rereading(t, 2, "a");
    assert t.server.armed == map[0 := OnParent, 1 := OnChildren];
  }

  lemma WriteThenUnsafe(init: State, past: seq<Step>, s: State, first: Step, second: Step)
    requires Init(init) && DisciplinedRun(init, past) && IsRun(init, past) && End(init, past) == s
    requires Enabled(s, first) && Safe(s, first) && Enabled(Apply(s, first), second) && !Safe(Apply(s, first), second)
    ensures IsRun(init, past + [first]) && End(init, past + [first]) == Apply(s, first)
    ensures var t := Apply(Apply(s, first), second);
            if second.CreateChild? then NeverHeardOf(t, second.name) else NeverReportedGone(t, second.name)
  {
    DisciplinedAppend(init, past, first);
    UnsafeStepMeans(init, past + [first], second);
  }

  /** Deleted and re-created before the next listing: the user is told of the deletion only, however
      the messages drain. */
  lemma RecreationIsMissed() returns (s: State)
    ensures Init(OneChild()) && IsRun(OneChild(), START + [DROP]) && s == End(OneChild(), START + [DROP])
    ensures Enabled(s, AGAIN) && NeverHeardOf(Apply(s, AGAIN), "a")
  {
    StartIsDisciplined();
    AfterDrop();
    s := Apply(Watching(ALL_ARMED, []), DROP);
    QuietWritesAreSafe(Watching(ALL_ARMED, []), DROP);
    WriteThenUnsafe(OneChild(), START, Watching(ALL_ARMED, []), DROP, AGAIN);
  }

  /** Deleted while the change event is still queued: however the messages drain, the user never
      hears of the deletion. */
  lemma DeletionIsMissed() returns (s: State)
    ensures Init(OneChild()) && IsRun(OneChild(), START + [WRITE]) && s == End(OneChild(), START + [WRITE])
    ensures Enabled(s, LATE) && NeverReportedGone(Apply(s, LATE), "a")
  {
    StartIsDisciplined();
    AfterWrite();
    s := Apply(Watching(ALL_ARMED, []), WRITE);
    WriteThenUnsafe(OneChild(), START, Watching(ALL_ARMED, []), WRITE, LATE);
  }
}
