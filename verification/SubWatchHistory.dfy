/**
 * What the user of `watch_sub_path` is told on the way: in every run, disciplined or not, the log of
 * notifications and what the queue still holds are together the server's own history of successful
 * reads and fired deletions, in the server's order, nothing added and nothing left out.
 */
module SubWatchHistory {
  import opened Seqs
  import opened Zk
  import opened SubWatch
  import opened SubWatchContexts
  import opened SubWatchListing
  import opened SubWatchConvergence
  import opened SubWatchExact

  // ---------- the server's history ----------

  function Copies(n: nat, note: Note): seq<Note> { seq(n, _ => note) }

  /** What the server's part of a step is to be told as: a read that finds its child, and a deletion
      once for every watch it fires. */
  function Announced(s: State, step: Step): seq<Note>
    requires Enabled(s, step)
  {
    match step
    case DeleteChild(name, fired, _) => Copies(|fired|, DelNote(name))
    case Serve(_) =>
      var r := s.requests[0];
      if r.AskGet? && r.name in s.server.children then [ChangedNote(r.name, s.server.children[r.name])] else []
    case _ => []
  }

  function History(s: State, steps: seq<Step>): seq<Note>
    requires IsRun(s, steps)
    decreases |steps|
  {
    if steps == [] then [] else Announced(s, steps[0]) + History(Apply(s, steps[0]), steps[1..])
  }

  /** What a message in the queue is to be told as. */
  function Notice(m: Msg): seq<Note> {
    match m
    case GetReply(_, name, data, _) => if data.Some? then [ChangedNote(name, data.value)] else []
    case Fire(_, target, event) => if target.OnChild? && event == Deleted then [DelNote(target.name)] else []
    case _ => []
  }

  function Queued(q: seq<Msg>): seq<Note> {
    if q == [] then [] else Notice(q[0]) + Queued(q[1..])
  }

  lemma {:induction false} QueuedAppend(p: seq<Msg>, q: seq<Msg>)
    ensures Queued(p + q) == Queued(p) + Queued(q)
  {
    if p == [] {
      assert p + q == q;
    } else {
      assert (p + q)[0] == p[0] && (p + q)[1..] == p[1..] + q;
      QueuedAppend(p[1..], q);
      Associates(Notice(p[0]), Queued(p[1..]), Queued(q));
    }
  }

  lemma {:induction false} QueuedFires(fired: seq<nat>, target: Target, event: Event)
    ensures Queued(Fires(fired, target, event)) ==
            if target.OnChild? && event == Deleted then Copies(|fired|, DelNote(target.name)) else []
  {
    if fired != [] {
      QueuedFires(fired[1..], target, event);
      var fs := Fires(fired, target, event);
      assert fs[0] == Fire(fired[0], target, event) && fs[1..] == Fires(fired[1..], target, event);
      if target.OnChild? {
        var note := DelNote(target.name);
        assert [note] + Copies(|fired| - 1, note) == Copies(|fired|, note);
      }
    }
  }

  // ---------- one step ----------

  /** Handling a message tells exactly its notice. */
  lemma DeliverTells(s: State)
    requires ContextsOk(s) && s.inbox != []
    ensures Apply(s, Deliver).client.log == s.client.log + Notice(s.inbox[0])
  {
    HeadFits(s);
    assert ContextOk(s, s.inbox[0].ctx);
  }

  lemma WriteQueues(s: State, step: Step)
    requires Enabled(s, step) && !step.Deliver? && !step.Serve?
    ensures Queued(Apply(s, step).inbox) == Queued(s.inbox) + Announced(s, step)
  {
    match step
    case CreateParent(fired) => TriggerQueues(s, OnParent, Created, fired);
    case SetParent(fired) => TriggerQueues(s, OnParent, Changed, fired);
    case CreateChild(_, _, fired) => TriggerQueues(s, OnChildren, Child, fired);
    case SetChild(name, _, fired) => TriggerQueues(s, OnChild(name), Changed, fired);
    case DeleteChild(name, fired, listFired) =>
      TriggerQueues(s, OnChild(name), Deleted, fired);
      TriggerQueues(Trigger(s, OnChild(name), Deleted, fired), OnChildren, Child, listFired);
  }

  lemma TriggerQueues(s: State, target: Target, event: Event, fired: seq<nat>)
    ensures Queued(s.inbox + Fires(fired, target, event)) == Queued(s.inbox) +
              if target.OnChild? && event == Deleted then Copies(|fired|, DelNote(target.name)) else []
  {
    QueuedAppend(s.inbox, Fires(fired, target, event));
    QueuedFires(fired, target, event);
  }

  lemma ServeQueues(s: State, order: seq<Name>)
    requires Enabled(s, Serve(order))
    ensures Queued(Apply(s, Serve(order)).inbox) == Queued(s.inbox) + Announced(s, Serve(order))
  {
    var reply := Answer(s.server, s.requests[0], order).0;
    QueuedAppend(s.inbox, [reply]);
    assert [reply][1..] == [];
    assert Queued([reply]) == Notice(reply) + [];
  }

  /** The log and the queue together. */
  function Stream(s: State): seq<Note> { s.client.log + Queued(s.inbox) }

  lemma StepAnnounces(s: State, step: Step)
    requires ContextsOk(s) && Enabled(s, step)
    ensures Stream(Apply(s, step)) == Stream(s) + Announced(s, step)
  {
    match step
    case Deliver =>
      DeliverTells(s);
      Associates(s.client.log, Notice(s.inbox[0]), Queued(s.inbox[1..]));
    case Serve(order) =>
      ServeQueues(s, order);
      Associates(s.client.log, Queued(s.inbox), Announced(s, step));
    case _ =>
      WriteQueues(s, step);
      Associates(s.client.log, Queued(s.inbox), Announced(s, step));
  }

  // ---------- every run ----------

  lemma {:induction false} RunAnnounces(s: State, steps: seq<Step>)
    requires ContextsOk(s) && IsRun(s, steps)
    ensures Stream(End(s, steps)) == Stream(s) + History(s, steps)
    decreases |steps|
  {
    if steps != [] {
      StepKeepsContexts(s, steps[0]);
      StepAnnounces(s, steps[0]);
      RunAnnounces(Apply(s, steps[0]), steps[1..]);
      Associates(Stream(s), Announced(s, steps[0]), History(Apply(s, steps[0]), steps[1..]));
    }
  }

  /** In every run the user has been told the first part of the server's history, and the queue
      holds the rest. */
  lemma LogIsHistory(s: State, steps: seq<Step>)
    requires Init(s) && IsRun(s, steps)
    ensures var t := End(s, steps); t.client.log + Queued(t.inbox) == History(s, steps)
    ensures Quiescent(End(s, steps)) ==> End(s, steps).client.log == History(s, steps)
  {
    InitContexts(s);
    RunAnnounces(s, steps);
    NothingYet(s);
    AllTold(End(s, steps));
  }

  lemma NothingYet(s: State)
    requires Init(s)
    ensures forall q: seq<Note> :: Stream(s) + q == q
  {
    assert Stream(s) == [];
  }

  lemma AllTold(s: State)
    ensures Quiescent(s) ==> Stream(s) == s.client.log
  {
    assert s.client.log + [] == s.client.log;
  }

  /** A write or an answer of the server tells the user nothing, one handled message at most one thing. */
  lemma OneNotePerMessage(s: State, steps: seq<Step>, step: Step)
    requires Init(s) && IsRun(s, steps) && Enabled(End(s, steps), step)
    ensures var t := End(s, steps); var u := Apply(t, step);
            if step.Deliver? then u.client.log == t.client.log + Notice(t.inbox[0]) && |Notice(t.inbox[0])| <= 1
            else u.client.log == t.client.log
  {
    InitContexts(s);
    RunKeepsContexts(s, steps);
    if step.Deliver? { DeliverTells(End(s, steps)); }
  }

  // ---------- what is told was so ----------

  /** The note was announced by the k-th step. */
  ghost predicate AnnouncedAt(s: State, steps: seq<Step>, k: nat, n: Note)
    requires IsRun(s, steps)
  {
    && k < |steps| && IsRun(s, steps[..k]) && Enabled(End(s, steps[..k]), steps[k])
    && n in Announced(End(s, steps[..k]), steps[k])
  }

  lemma {:induction false} InHistory(s: State, steps: seq<Step>, n: Note) returns (k: nat)
    requires IsRun(s, steps) && n in History(s, steps)
    ensures AnnouncedAt(s, steps, k, n)
    decreases |steps|
  {
    if n in Announced(s, steps[0]) {
      k := 0;
      assert steps[..0] == [];
    } else {
      var j := InHistory(Apply(s, steps[0]), steps[1..], n);
      k := j + 1;
      assert steps[..k][1..] == steps[1..][..j];
      assert steps[1..][j] == steps[k];
    }
  }

  /** Every value the user is told of a child was the child's value on the server when a read of it
      was answered. */
  lemma ChangesAreReal(s: State, steps: seq<Step>, c: Name, d: Data)
    requires Init(s) && IsRun(s, steps) && ChangedNote(c, d) in End(s, steps).client.log
    ensures exists k: nat :: k < |steps| && steps[k].Serve? && IsRun(s, steps[..k]) &&
              c in End(s, steps[..k]).server.children && End(s, steps[..k]).server.children[c] == d
  {
    LogIsHistory(s, steps);
    var k := InHistory(s, steps, ChangedNote(c, d));
  }

  // ---------- every deletion told answers its own deletion ----------

  /** How often children named `c` have been deleted. */
  function Deletions(steps: seq<Step>, c: Name): nat {
    if steps == [] then 0
    else (if steps[0].DeleteChild? && steps[0].name == c then 1 else 0) + Deletions(steps[1..], c)
  }

  /** How many watches these deletions fired. */
  function Firings(steps: seq<Step>, c: Name): nat {
    if steps == [] then 0
    else (if steps[0].DeleteChild? && steps[0].name == c then |steps[0].fired| else 0) + Firings(steps[1..], c)
  }

  lemma {:induction false} CopiesCount(n: nat, note: Note, other: Note)
    ensures multiset(Copies(n, note))[other] == if other == note then n else 0
  {
    if n > 0 {
      CopiesCount(n - 1, note, other);
      assert Copies(n, note) == Copies(n - 1, note) + [note];
    }
  }

  lemma {:induction false} HistoryDeletes(s: State, steps: seq<Step>, c: Name)
    requires IsRun(s, steps)
    ensures multiset(History(s, steps))[DelNote(c)] == Firings(steps, c)
    decreases |steps|
  {
    if steps != [] {
      HistoryDeletes(Apply(s, steps[0]), steps[1..], c);
      if steps[0].DeleteChild? { CopiesCount(|steps[0].fired|, DelNote(steps[0].name), DelNote(c)); }
    }
  }

  /** In every run, each watch a deletion fired is one `del`, told or still in the queue. */
  lemma DeletesAreFirings(s: State, steps: seq<Step>, c: Name)
    requires Init(s) && IsRun(s, steps)
    ensures var t := End(s, steps);
            multiset(t.client.log)[DelNote(c)] + multiset(Queued(t.inbox))[DelNote(c)] == Firings(steps, c)
  {
    LogIsHistory(s, steps);
    HistoryDeletes(s, steps, c);
  }

  /** The child's contexts that have not been told of its deletion and are not about to be. */
  function Live(s: State, c: Name): set<nat> {
    set x | x in s.client.contexts && s.client.contexts[x].GetCtx? && s.client.contexts[x].name == c &&
            Fire(x, OnChild(c), Deleted) !in s.inbox
  }

  /** How many contexts the listings now in the queue will open for the child. */
  function ToOpen(cache: Option<set<Name>>, q: seq<Msg>, c: Name): nat
    decreases |q|
  {
    if q == [] then 0
    else if q[0].ListReply? && q[0].names.Some? then
      (if c in q[0].names.value && c !in Known(cache) then 1 else 0)
      + ToOpen(Some(Elements(q[0].names.value)), q[1..], c)
    else ToOpen(cache, q[1..], c)
  }

  lemma {:induction false} ToOpenAppend(cache: Option<set<Name>>, p: seq<Msg>, q: seq<Msg>, c: Name)
    ensures ToOpen(cache, p + q, c) == ToOpen(cache, p, c) + ToOpen(Listed(cache, p), q, c)
    decreases |p|
  {
    if p == [] {
      assert p + q == q;
    } else {
      assert (p + q)[1..] == p[1..] + q;
      ToOpenAppend(if p[0].ListReply? && p[0].names.Some? then Some(Elements(p[0].names.value)) else cache,
                   p[1..], q, c);
    }
  }

  lemma {:induction false} ToOpenNone(cache: Option<set<Name>>, q: seq<Msg>, c: Name)
    requires forall m :: m in q ==> !m.ListReply?
    ensures ToOpen(cache, q, c) == 0
    decreases |q|
  {
    if q != [] {
      assert q[0] in q;
      ToOpenNone(cache, q[1..], c);
    }
  }

  function Opening(s: State, c: Name): nat { ToOpen(s.client.cache, s.inbox, c) }

  /** Contexts are paid for by deletions: `told` of them have been told of one, the rest are live or
      about to be opened, and there is one more than deletions only while the child is there and known. */
  predicate Paid(s: State, c: Name, told: nat, deleted: nat) {
    && told <= deleted
    && told + |Live(s, c)| + Opening(s, c) <=
       deleted + if c in KnownSoon(s) && c in s.server.children then 1 else 0
  }

  /** Firing watches: only a deletion of the child itself concerns its contexts. */
  lemma TriggerPays(s: State, target: Target, event: Event, fired: seq<nat>, c: Name)
    requires ContextsOk(s) && AllArmed(s.server.armed, target, fired)
    ensures var t := Trigger(s, target, event, fired);
            && Opening(t, c) == Opening(s, c) && KnownSoon(t) == KnownSoon(s)
            && (if target == OnChild(c) && event == Deleted then |Live(t, c)| + |fired| == |Live(s, c)|
                else Live(t, c) == Live(s, c))
  {
    FiresAreFires(fired, target, event);
    ToOpenAppend(s.client.cache, s.inbox, Fires(fired, target, event), c);
    ToOpenNone(Listed(s.client.cache, s.inbox), Fires(fired, target, event), c);
    TriggerKeepsListed(s, target, event, fired);
    if target == OnChild(c) && event == Deleted {
      DeletionEndsLives(s, fired, c);
    } else {
      OthersStayLive(s, target, event, fired, c);
    }
  }

  lemma OthersStayLive(s: State, target: Target, event: Event, fired: seq<nat>, c: Name)
    requires target != OnChild(c) || event != Deleted
    ensures Live(Trigger(s, target, event, fired), c) == Live(s, c)
  {
    var t, fs := Trigger(s, target, event, fired), Fires(fired, target, event);
    FiresAreFires(fired, target, event);
    assert forall x: nat :: Fire(x, OnChild(c), Deleted) in t.inbox <==> Fire(x, OnChild(c), Deleted) in s.inbox;
  }

  /** The contexts that a deletion fires are live no longer. */
  lemma DeletionEndsLives(s: State, fired: seq<nat>, c: Name)
    requires ContextsOk(s) && AllArmed(s.server.armed, OnChild(c), fired)
    ensures |Live(Trigger(s, OnChild(c), Deleted, fired), c)| + |fired| == |Live(s, c)|
  {
    var t := Trigger(s, OnChild(c), Deleted, fired);
    FiresAreFires(fired, OnChild(c), Deleted);
    FiresMember(fired, OnChild(c), Deleted);
    forall x | x in fired ensures x in Live(s, c) { ArmedIsLive(s, x, c); }
    assert Live(t, c) == Live(s, c) - Elements(fired);
    DistinctCount(fired);
  }

  lemma ArmedIsLive(s: State, x: nat, c: Name)
    requires ContextsOk(s) && x in s.server.armed && s.server.armed[x] == OnChild(c)
    ensures x in Live(s, c)
  {
    assert ContextOk(s, x);
    MessagesOfMember(s.inbox, x, Fire(x, OnChild(c), Deleted));
  }

  lemma {:induction false} DistinctCount(q: seq<nat>)
    requires Distinct(q)
    ensures |Elements(q)| == |q|
  {
    if q != [] {
      DistinctCount(q[1..]);
      assert Elements(q) == {q[0]} + Elements(q[1..]);
    }
  }

  lemma ServePays(s: State, order: seq<Name>, c: Name, told: nat, deleted: nat)
    requires Enabled(s, Serve(order)) && Paid(s, c, told, deleted)
    ensures Paid(Apply(s, Serve(order)), c, told, deleted)
  {
    var t := Apply(s, Serve(order));
    var reply := Answer(s.server, s.requests[0], order).0;
    assert Live(t, c) == Live(s, c);
    ToOpenAppend(s.client.cache, s.inbox, [reply], c);
    ListedAppend(s.client.cache, s.inbox, [reply]);
    assert [reply][1..] == [];
    assert c in order <==> c in Elements(order);
  }

  lemma DeliverPays(s: State, c: Name)
    requires ContextsOk(s) && s.inbox != []
    ensures var t := Apply(s, Deliver);
            KnownSoon(t) == KnownSoon(s) && |Live(t, c)| + Opening(t, c) == |Live(s, c)| + Opening(s, c)
  {
    HeadFits(s);
    if s.inbox[0].ListReply? && s.inbox[0].names.Some? {
      ListingPays(s, c);
    } else {
      OtherLive(s, c);
    }
  }

  /** Every other message leaves the live contexts as they are. */
  lemma OtherLive(s: State, c: Name)
    requires ContextsOk(s) && s.inbox != [] && !(s.inbox[0].ListReply? && s.inbox[0].names.Some?)
    ensures Live(Apply(s, Deliver), c) == Live(s, c) && Apply(s, Deliver).client.cache == s.client.cache
  {
    var t := Apply(s, Deliver);
    HeadFits(s);
    forall x: nat ensures x in Live(t, c) <==> x in Live(s, c) { OtherLiveAt(s, x, c); }
  }

  lemma OtherLiveAt(s: State, x: nat, c: Name)
    requires ContextsOk(s) && s.inbox != [] && !(s.inbox[0].ListReply? && s.inbox[0].names.Some?)
    ensures x in Live(Apply(s, Deliver), c) <==> x in Live(s, c)
  {
    HeadFits(s);
    assert ContextOk(s, x);
    var m, fire := s.inbox[0], Fire(x, OnChild(c), Deleted);
    assert fire in s.inbox <==> fire == m || fire in s.inbox[1..];
  }

  /** The context is one of those opened for the names, numbered from `first`, and is for this child. */
  predicate OpenedFor(first: nat, unseen: seq<Name>, x: nat, c: Name) {
    first <= x < first + |unseen| && unseen[x - first] == c
  }

  /** A listing opens one context for a child that is listed and not cached. */
  lemma ListingPays(s: State, c: Name)
    requires ContextsOk(s) && s.inbox != [] && s.inbox[0].ListReply? && s.inbox[0].names.Some?
    ensures var t, names := Apply(s, Deliver), s.inbox[0].names.value;
            && |Live(t, c)| == |Live(s, c)| + (if c in names && c !in Known(s.client.cache) then 1 else 0)
            && t.client.cache == Some(Elements(names))
  {
    HeadFits(s);
    var names, known := s.inbox[0].names.value, Known(s.client.cache);
    FreshIs(names, known);
    FreshDistinct(names, known);
    forall x: nat { ListingLiveAt(s, x, c); }
    NewlyLive(Live(s, c), Live(Apply(s, Deliver), c), s.client.next, Fresh(names, known), c) by {
      forall x | x in Live(s, c) ensures x < s.client.next { assert ContextOk(s, x); }
    }
  }

  lemma NewlyLive(live: set<nat>, after: set<nat>, first: nat, unseen: seq<Name>, c: Name)
    requires Distinct(unseen) && forall x :: x in live ==> x < first
    requires forall x: nat :: x in after <==> x in live || OpenedFor(first, unseen, x, c)
    ensures |after| == |live| + if c in unseen then 1 else 0
  {
    if c in unseen {
      var i :| 0 <= i < |unseen| && unseen[i] == c;
      assert forall x: nat :: OpenedFor(first, unseen, x, c) <==> x == first + i;
      assert after == live + {first + i};
    } else {
      assert after == live;
    }
  }

  lemma ListingLiveAt(s: State, x: nat, c: Name)
    requires ContextsOk(s) && s.inbox != [] && s.inbox[0].ListReply? && s.inbox[0].names.Some?
    ensures x in Live(Apply(s, Deliver), c) <==>
              x in Live(s, c)
              || OpenedFor(s.client.next, Fresh(s.inbox[0].names.value, Known(s.client.cache)), x, c)
  {
    HeadFits(s);
    ListingShare(s, x);
    if x >= s.client.next { NewerLive(s, x, c); } else { OlderLive(s, x, c); }
  }

  /** A context numbered from `next` on is live exactly if it has been opened for the child. */
  lemma NewerLive(s: State, x: nat, c: Name)
    requires ContextsOk(s) && s.inbox != [] && s.inbox[0].ListReply? && s.inbox[0].names.Some? && x >= s.client.next
    requires var unseen := Fresh(s.inbox[0].names.value, Known(s.client.cache));
             Get(Apply(s, Deliver).client.contexts, x) ==
             if x < s.client.next + |unseen| then Some(GetCtx(unseen[x - s.client.next], Dummy))
             else Get(s.client.contexts, x)
    ensures x !in Live(s, c)
    ensures x in Live(Apply(s, Deliver), c) <==>
              OpenedFor(s.client.next, Fresh(s.inbox[0].names.value, Known(s.client.cache)), x, c)
  {
    var t, fire := Apply(s, Deliver), Fire(x, OnChild(c), Deleted);
    NothingQueued(s, x, fire);
    assert fire !in t.inbox by { assert t.inbox == s.inbox[1..]; }
    assert x in t.client.contexts ==> t.client.contexts[x] == Get(t.client.contexts, x).value;
  }

  /** The contexts that were there stay as they are. */
  lemma OlderLive(s: State, x: nat, c: Name)
    requires s.inbox != [] && s.inbox[0].ListReply? && x < s.client.next
    requires Get(Apply(s, Deliver).client.contexts, x) == Get(s.client.contexts, x)
    ensures x in Live(Apply(s, Deliver), c) <==> x in Live(s, c)
  {
    var fire := Fire(x, OnChild(c), Deleted);
    assert Apply(s, Deliver).inbox == s.inbox[1..];
    assert fire in s.inbox <==> fire in s.inbox[1..];
  }

  /** Nothing is queued for a context that is not open yet. */
  lemma NothingQueued(s: State, x: nat, m: Msg)
    requires ContextsOk(s) && x >= s.client.next && m.ctx == x
    ensures m !in s.inbox && x !in s.client.contexts
  {
    assert ContextOk(s, x);
    MessagesOfMember(s.inbox, x, m);
  }

  /** Contexts have nothing to do with the nodes themselves. */
  lemma OtherNodes(s: State, parent: bool, children: map<Name, Data>)
    requires ContextsOk(s)
    ensures ContextsOk(s.(server := s.server.(parent := parent, children := children)))
  {
    var t := s.(server := s.server.(parent := parent, children := children));
    forall x: nat ensures ContextOk(t, x) { assert ContextOk(s, x); }
  }

  lemma StepPays(s: State, step: Step, c: Name, told: nat, deleted: nat)
    requires ContextsOk(s) && Enabled(s, step) && Paid(s, c, told, deleted)
    ensures var hit := step.DeleteChild? && step.name == c;
            Paid(Apply(s, step), c, told + if hit then |step.fired| else 0, deleted + if hit then 1 else 0)
  {
    var sv := s.server;
    match step
    case CreateParent(fired) =>
      OtherNodes(s, true, sv.children);
      TriggerPays(s.(server := sv.(parent := true)), OnParent, Created, fired, c);
    case SetParent(fired) => TriggerPays(s, OnParent, Changed, fired, c);
    case CreateChild(name, data, fired) =>
      OtherNodes(s, sv.parent, sv.children[name := data]);
      TriggerPays(s.(server := sv.(children := sv.children[name := data])), OnChildren, Child, fired, c);
    case SetChild(name, data, fired) =>
      OtherNodes(s, sv.parent, sv.children[name := data]);
      TriggerPays(s.(server := sv.(children := sv.children[name := data])), OnChild(name), Changed, fired, c);
    case DeleteChild(name, fired, listFired) =>
      var gone := s.(server := sv.(children := sv.children - {name}));
      OtherNodes(s, sv.parent, sv.children - {name});
      TriggerPays(gone, OnChild(name), Deleted, fired, c);
      TriggerKeepsContexts(gone, OnChild(name), Deleted, fired);
      TriggerPays(Trigger(gone, OnChild(name), Deleted, fired), OnChildren, Child, listFired, c);
    case Serve(order) => ServePays(s, order, c, told, deleted);
    case Deliver => DeliverPays(s, c);
  }

  lemma {:induction false} RunPays(s: State, steps: seq<Step>, c: Name, told: nat, deleted: nat)
    requires ContextsOk(s) && IsRun(s, steps) && Paid(s, c, told, deleted)
    ensures told + Firings(steps, c) <= deleted + Deletions(steps, c)
    decreases |steps|
  {
    if steps != [] {
      StepKeepsContexts(s, steps[0]);
      StepPays(s, steps[0], c, told, deleted);
      var hit := steps[0].DeleteChild? && steps[0].name == c;
      RunPays(Apply(s, steps[0]), steps[1..], c, told + if hit then |steps[0].fired| else 0,
              deleted + if hit then 1 else 0);
    }
  }

  /** In every run, at every moment, the user has been told of no more deletions of a child than
      there were; so a run that deletes no child of that name tells of none. */
  lemma DeletesAreAnswered(s: State, steps: seq<Step>, c: Name)
    requires Init(s) && IsRun(s, steps)
    ensures multiset(End(s, steps).client.log)[DelNote(c)] <= Deletions(steps, c)
  {
    InitContexts(s);
    DeletesAreFirings(s, steps, c);
    assert Live(s, c) == {};
    RunPays(s, steps, c, 0, 0);
  }

  // ---------- which deletion is told, and how often ----------

  lemma {:induction false} NoFirings(s: State, steps: seq<Step>, c: Name)
    requires Drains(s, steps)
    ensures Firings(steps, c) == 0
    decreases |steps|
  {
    if steps != [] {
      assert steps[0].Serve? || steps[0].Deliver?;
      assert forall i :: 0 <= i < |steps[1..]| ==> steps[1..][i] == steps[i + 1];
      NoFirings(Apply(s, steps[0]), steps[1..], c);
    }
  }

  /** In the end a deletion has been told once for each context that was armed on the child, whatever
      the run before it. */
  lemma ToldOncePerWatch(s: State, past: seq<Step>, step: Step, drain: seq<Step>)
    requires Init(s) && IsRun(s, past) && step.DeleteChild? && Enabled(End(s, past), step)
    requires Drains(Apply(End(s, past), step), drain) && Quiescent(End(Apply(End(s, past), step), drain))
    ensures var t, note := End(s, past), DelNote(step.name);
            var v := End(Apply(t, step), drain);
            multiset(v.client.log)[note] == multiset(t.client.log + Queued(t.inbox))[note] + |step.fired|
  {
    var t := End(s, past);
    var u := Apply(t, step);
    InitContexts(s);
    RunKeepsContexts(s, past);
    StepKeepsContexts(t, step);
    StepAnnounces(t, step);
    RunAnnounces(u, drain);
    HistoryDeletes(u, drain, step.name);
    NoFirings(u, drain, step.name);
    CopiesCount(|step.fired|, DelNote(step.name), DelNote(step.name));
    var v := End(u, drain);
    assert v.client.log + [] == v.client.log;
  }

  /** In a disciplined run that is exactly once for a child the user knows or is about to know. */
  lemma DisciplinedToldOnce(s: State, past: seq<Step>, step: Step)
    requires Init(s) && DisciplinedRun(s, past) && IsRun(s, past)
    requires step.DeleteChild? && Enabled(End(s, past), step) && Safe(End(s, past), step)
    ensures |step.fired| == if step.name in View(End(s, past)) then 1 else 0
  {
    InitDisciplined(s);
    RunKeepsDisciplined(s, past);
    OneArmed(End(s, past), step.name, step.fired);
  }

  lemma OneArmed(t: State, c: Name, fired: seq<nat>)
    requires Monitored(t) && SafeDelete(t, c) && AllArmed(t.server.armed, OnChild(c), fired)
    ensures |fired| == if c in View(t) then 1 else 0
  {
    forall x: nat | x in fired ensures c in View(t) { assert ArmedFor(t, x, c); }
    forall x: nat | ActiveFor(t, x, c) && c in View(t) ensures x in fired { assert !Rereading(t, x, c); }
    assert c in View(t) ==> Covered(t, c);
    if |fired| > 1 {
      var x, y := fired[0], fired[1];
      assert x in fired && y in fired && x != y;
      assert ArmedFor(t, x, c) && ArmedFor(t, y, c);
      assert ActiveFor(t, x, c) && ActiveFor(t, y, c);
      assert false;
    }
    if |fired| == 1 { assert fired[0] in fired; }
  }

  // ---------- one deletion told twice ----------

  /** The run reaches the state from the initial one. */
  ghost predicate Reaches(past: seq<Step>, s: State) {
    IsRun(OneChild(), past) && End(OneChild(), past) == s
  }

  lemma Then(past: seq<Step>, s: State, step: Step, t: State) returns (longer: seq<Step>)
    requires Reaches(past, s) && Enabled(s, step) && Apply(s, step) == t
    ensures Reaches(longer, t)
  {
    longer := past + [step];
    OneStep(s, step);
    RunAppend(OneChild(), past, [step]);
  }

  const HERE: map<Name, Data> := map["a" := None]
  const NOT_HERE: map<Name, Data> := map[]
  const PARENT: map<nat, Target> := map[0 := OnParent]
  const LIST: map<nat, Target> := map[0 := OnParent, 1 := OnChildren]
  const CHILD: map<nat, Target> := map[0 := OnParent, 2 := OnChild("a")]
  const BOTH: map<nat, Target> := map[0 := OnParent, 1 := OnChildren, 2 := OnChild("a"), 3 := OnChild("a")]
  const KEPT: map<nat, Ctx> := map[0 := ExistsCtx(Dummy), 1 := ListCtx, 2 := GetCtx("a", Changed)]
  const LISTED := Fire(1, OnChildren, Child)
  const WRITTEN := Fire(2, OnChild("a"), Changed)
  const REREAD := AskGet(2, "a", Changed)
  const REPLY := GetReply(2, "a", Some(None), Changed)

  function On(children: map<Name, Data>, armed: map<nat, Target>, requests: seq<Request>, inbox: seq<Msg>,
              client: Client): State
  {
    State(Server(true, children, armed), requests, inbox, client)
  }

  /** The client with its one child, when the child's event and how much of the log is in. */
  function Knowing(eve: Event, cache: set<Name>, notes: nat): Client {
    Client(3, map[0 := ExistsCtx(Dummy), 1 := ListCtx, 2 := GetCtx("a", eve)], Some(cache),
           Copies(notes, ChangedNote("a", None)))
  }

  /** The client that has opened a second context for the child. */
  function Doubled(notes: nat): Client {
    Client(4, KEPT[3 := GetCtx("a", Dummy)], Some({"a"}), Copies(notes, ChangedNote("a", None)))
  }

  function Clean(): State { On(HERE, ALL_ARMED, [], [], Knowing(Dummy, {"a"}, 1)) }

  lemma More(n: nat)
    ensures Copies(n, ChangedNote("a", None)) + [ChangedNote("a", None)] == Copies(n + 1, ChangedNote("a", None))
  {}

  /** Another child comes and goes, then "a" is written: both watches have fired. */
  lemma OtherComes()
    ensures var s, t := Clean(), On(HERE["b" := None], CHILD, [], [LISTED], Knowing(Dummy, {"a"}, 1));
            var step := CreateChild("b", None, [1]);
            Enabled(s, step) && Apply(s, step) == t
  {
    OneFire(1, OnChildren, Child);
    assert Disarm(ALL_ARMED, OnChildren) == CHILD;
  }

  lemma OtherGoes()
    ensures var s, t := On(HERE["b" := None], CHILD, [], [LISTED], Knowing(Dummy, {"a"}, 1)),
                        On(HERE, CHILD, [], [LISTED], Knowing(Dummy, {"a"}, 1));
            var step := DeleteChild("b", [], []);
            Enabled(s, step) && Apply(s, step) == t
  {
    assert Disarm(CHILD, OnChildren) == CHILD && Disarm(CHILD, OnChild("b")) == CHILD;
    assert HERE["b" := None] - {"b"} == HERE;
  }

  lemma IsWritten()
    ensures var s, t := On(HERE, CHILD, [], [LISTED], Knowing(Dummy, {"a"}, 1)),
                        On(HERE, PARENT, [], [LISTED, WRITTEN], Knowing(Dummy, {"a"}, 1));
            var step := SetChild("a", None, [2]);
            Enabled(s, step) && Apply(s, step) == t
  {
    OneFire(2, OnChild("a"), Changed);
    assert Disarm(CHILD, OnChild("a")) == PARENT;
    assert HERE["a" := None] == HERE;
  }

  lemma BothFire() returns (past: seq<Step>)
    ensures Reaches(past, On(HERE, PARENT, [], [LISTED, WRITTEN], Knowing(Dummy, {"a"}, 1)))
  {
    StartReports();
    var c := Knowing(Dummy, {"a"}, 1);
    assert Watching(ALL_ARMED, []) == Clean();
    var s1, s2 := On(HERE["b" := None], CHILD, [], [LISTED], c), On(HERE, CHILD, [], [LISTED], c);
    OtherComes();
    past := Then(START, Clean(), CreateChild("b", None, [1]), s1);
    OtherGoes();
    past := Then(past, s1, DeleteChild("b", [], []), s2);
    IsWritten();
    past := Then(past, s2, SetChild("a", None, [2]), On(HERE, PARENT, [], [LISTED, WRITTEN], c));
  }

  /** The listing is asked for before the child is read again. */
  lemma ListingFirst() returns (past: seq<Step>)
    ensures Reaches(past, On(HERE, PARENT, [AskList(1), REREAD], [], Knowing(Changed, {"a"}, 1)))
  {
    past := BothFire();
    var s, t := On(HERE, PARENT, [], [LISTED, WRITTEN], Knowing(Dummy, {"a"}, 1)),
                On(HERE, PARENT, [AskList(1)], [WRITTEN], Knowing(Dummy, {"a"}, 1));
    assert [LISTED, WRITTEN][1..] == [WRITTEN] && [WRITTEN][1..] == [];
    past := Then(past, s, Deliver, t);
    past := Then(past, t, Deliver, On(HERE, PARENT, [AskList(1), REREAD], [], Knowing(Changed, {"a"}, 1)));
  }

  /** The child is gone when the listing is answered. */
  lemma ListedWithout() returns (past: seq<Step>)
    ensures Reaches(past, On(NOT_HERE, LIST, [REREAD], [ListReply(1, Some([]))], Knowing(Changed, {"a"}, 1)))
  {
    past := ListingFirst();
    var c := Knowing(Changed, {"a"}, 1);
    var s, t := On(HERE, PARENT, [AskList(1), REREAD], [], c), On(NOT_HERE, PARENT, [AskList(1), REREAD], [], c);
    assert Disarm(PARENT, OnChildren) == PARENT && Disarm(PARENT, OnChild("a")) == PARENT;
    assert HERE - {"a"} == NOT_HERE;
    past := Then(past, s, DeleteChild("a", [], []), t);
    assert [AskList(1), REREAD][1..] == [REREAD] && Elements<Name>([]) == {};
    past := Then(past, t, Serve([]), On(NOT_HERE, LIST, [REREAD], [ListReply(1, Some([]))], c));
  }

  /** It is back when it is read again. */
  lemma ReadAgain() returns (past: seq<Step>)
    ensures Reaches(past, On(HERE, CHILD, [], [ListReply(1, Some([])), LISTED, REPLY], Knowing(Changed, {"a"}, 1)))
  {
    past := ListedWithout();
    var c, gone := Knowing(Changed, {"a"}, 1), ListReply(1, Some([]));
    var s, t := On(NOT_HERE, LIST, [REREAD], [gone], c), On(HERE, PARENT, [REREAD], [gone, LISTED], c);
    OneFire(1, OnChildren, Child);
    assert Disarm(LIST, OnChildren) == PARENT;
    past := Then(past, s, CreateChild("a", None, [1]), t);
    assert [REREAD][1..] == [] && Elements(["a"]) == {"a"};
    past := Then(past, t, Serve(["a"]), On(HERE, CHILD, [], [gone, LISTED, REPLY], c));
  }

  lemma Forgets()
    ensures var s, t := On(HERE, CHILD, [], [ListReply(1, Some([])), LISTED, REPLY], Knowing(Changed, {"a"}, 1)),
                        On(HERE, CHILD, [], [LISTED, REPLY], Knowing(Changed, {}, 1));
            Enabled(s, Deliver) && Apply(s, Deliver) == t
  {
    assert [ListReply(1, Some([])), LISTED, REPLY][1..] == [LISTED, REPLY] && Elements<Name>([]) == {};
    assert KEPT + NewContexts(3, []) == KEPT;
  }

  lemma AsksAgain()
    ensures var s, t := On(HERE, CHILD, [], [LISTED, REPLY], Knowing(Changed, {}, 1)),
                        On(HERE, CHILD, [AskList(1)], [REPLY], Knowing(Changed, {}, 1));
            Enabled(s, Deliver) && Apply(s, Deliver) == t
  {
    assert [LISTED, REPLY][1..] == [REPLY];
  }

  /** The client has forgotten the child and asks for the next listing. */
  lemma Forgotten() returns (past: seq<Step>)
    ensures Reaches(past, On(HERE, CHILD, [AskList(1)], [], Knowing(Changed, {}, 2)))
  {
    past := ReadAgain();
    var s, t := On(HERE, CHILD, [], [ListReply(1, Some([])), LISTED, REPLY], Knowing(Changed, {"a"}, 1)),
                On(HERE, CHILD, [], [LISTED, REPLY], Knowing(Changed, {}, 1));
    Forgets();
    past := Then(past, s, Deliver, t);
    var u := On(HERE, CHILD, [AskList(1)], [REPLY], Knowing(Changed, {}, 1));
    AsksAgain();
    past := Then(past, t, Deliver, u);
    More(1);
    assert [REPLY][1..] == [];
    past := Then(past, u, Deliver, On(HERE, CHILD, [AskList(1)], [], Knowing(Changed, {}, 2)));
  }

  /** Two contexts are armed on the one child, and nothing is under way. */
  lemma TwoContexts() returns (past: seq<Step>)
    ensures Reaches(past, On(HERE, BOTH, [], [], Doubled(3)))
  {
    past := Forgotten();
    var names := ListReply(1, Some(["a"]));
    var s, t := On(HERE, CHILD, [AskList(1)], [], Knowing(Changed, {}, 2)),
                On(HERE, ALL_ARMED, [], [names], Knowing(Changed, {}, 2));
    assert [AskList(1)][1..] == [] && Elements(["a"]) == {"a"};
    past := Then(past, s, Serve(["a"]), t);
    past := SecondContext(past, t);
  }

  lemma FoundAgain()
    ensures var t := On(HERE, ALL_ARMED, [], [ListReply(1, Some(["a"]))], Knowing(Changed, {}, 2));
            Apply(t, Deliver) == On(HERE, ALL_ARMED, [AskGet(3, "a", Dummy)], [], Doubled(2))
  {
    assert ["a"][1..] == [] && Elements(["a"]) == {"a"};
    assert Fresh(["a"], {}) == ["a"];
    assert NewRequests(4, []) == [] && NewContexts(4, []) == map[];
    assert NewRequests(3, ["a"]) == [AskGet(3, "a", Dummy)];
    assert NewContexts(3, ["a"]) == map[3 := GetCtx("a", Dummy)];
    assert KEPT + map[3 := GetCtx("a", Dummy)] == KEPT[3 := GetCtx("a", Dummy)];
  }

  lemma ServedAgain()
    ensures var u := On(HERE, ALL_ARMED, [AskGet(3, "a", Dummy)], [], Doubled(2));
            && Enabled(u, Serve(["a"]))
            && Apply(u, Serve(["a"])) == On(HERE, BOTH, [], [GetReply(3, "a", Some(None), Dummy)], Doubled(2))
  {
    assert Elements(["a"]) == {"a"};
    assert ALL_ARMED[3 := OnChild("a")] == BOTH;
  }

  lemma SecondContext(before: seq<Step>, t: State) returns (past: seq<Step>)
    requires t == On(HERE, ALL_ARMED, [], [ListReply(1, Some(["a"]))], Knowing(Changed, {}, 2)) && Reaches(before, t)
    ensures Reaches(past, On(HERE, BOTH, [], [], Doubled(3)))
  {
    var ask, reply := AskGet(3, "a", Dummy), GetReply(3, "a", Some(None), Dummy);
    var u, v := On(HERE, ALL_ARMED, [ask], [], Doubled(2)), On(HERE, BOTH, [], [reply], Doubled(2));
    FoundAgain();
    past := Then(before, t, Deliver, u);
    ServedAgain();
    past := Then(past, u, Serve(["a"]), v);
    More(2);
    past := Then(past, v, Deliver, On(HERE, BOTH, [], [], Doubled(3)));
  }

  /** A child that was deleted and re-created around a re-read has two contexts; its next deletion is
      told twice, however the messages drain, and the one before it never. */
  lemma ToldTwice() returns (past: seq<Step>)
    ensures Init(OneChild()) && IsRun(OneChild(), past) && Quiescent(End(OneChild(), past))
    ensures var t, step := End(OneChild(), past), DeleteChild("a", [2, 3], [1]);
            && Enabled(t, step) && DelNote("a") !in t.client.log
            && forall drain :: Drains(Apply(t, step), drain) && Quiescent(End(Apply(t, step), drain)) ==>
                 multiset(End(Apply(t, step), drain).client.log)[DelNote("a")] == 2
  {
    past := TwoContexts();
    TwiceFrom(past);
  }

  lemma TwiceFrom(past: seq<Step>)
    requires Reaches(past, On(HERE, BOTH, [], [], Doubled(3)))
    ensures var t, step := On(HERE, BOTH, [], [], Doubled(3)), DeleteChild("a", [2, 3], [1]);
            && Enabled(t, step) && DelNote("a") !in t.client.log
            && forall drain :: Drains(Apply(t, step), drain) && Quiescent(End(Apply(t, step), drain)) ==>
                 multiset(End(Apply(t, step), drain).client.log)[DelNote("a")] == 2
  {
    var t, step := On(HERE, BOTH, [], [], Doubled(3)), DeleteChild("a", [2, 3], [1]);
    TwoArmed();
    CopiesCount(3, ChangedNote("a", None), DelNote("a"));
    forall drain | Drains(Apply(t, step), drain) && Quiescent(End(Apply(t, step), drain))
      ensures multiset(End(Apply(t, step), drain).client.log)[DelNote("a")] == 2
    {
      ToldOncePerWatch(OneChild(), past, step, drain);
      assert t.client.log + Queued(t.inbox) == t.client.log;
    }
  }

  lemma TwoArmed()
    ensures Enabled(On(HERE, BOTH, [], [], Doubled(3)), DeleteChild("a", [2, 3], [1]))
  {}
}
