/**
 * The `watch_path` protocol as a step machine: one target node that may be absent, one exists
 * context that is never dropped, and a plain read for every check that reports a change.
 * `zxid` numbers the server's writes; the notifications carry it so that two writes of the same
 * value stay apart.  `cause` is the event that made the client send a check: no handler reads it.
 */
module PathWatch {
  import opened Zk

  datatype Node = Node(data: Data, zxid: nat)

  datatype Request = AskExists(cause: Event) | AskGet

  datatype Msg = ExistsReply(ok: bool, cause: Event) | Fire(event: Event) | GetReply(node: Option<Node>)

  datatype Note = ChangedNote(node: Node) | DelNote

  datatype Client = Client(eve: Event, log: seq<Note>)

  datatype State = State(target: Option<Node>, zxid: nat, armed: bool,
                         requests: seq<Request>, inbox: seq<Msg>, client: Client)

  // ---------- client ----------

  predicate Fetches(eve: Event) { eve == Dummy || eve == Created || eve == Changed }

  function Handle(c: Client, m: Msg): (Client, seq<Request>) {
    match m
    case ExistsReply(ok, _) =>
      if !ok && c.eve == Deleted then (c.(log := c.log + [DelNote]), [])
      else if Fetches(c.eve) then (c, [AskGet])
      else (c, [])
    case Fire(event) => (c.(eve := event), [AskExists(event)])
    case GetReply(node) => if node.Some? then (c.(log := c.log + [ChangedNote(node.value)]), []) else (c, [])
  }

  // ---------- steps ----------

  datatype Step = Create(data: Data) | Set(data: Data) | Delete | Serve | Deliver

  predicate Enabled(s: State, step: Step) {
    match step
    case Create(_) => s.target.None?
    case Set(_) => s.target.Some?
    case Delete => s.target.Some?
    case Serve => s.requests != []
    case Deliver => s.inbox != []
  }

  /** A write fires the armed watch once. */
  function Write(s: State, target: Option<Node>, event: Event): State {
    s.(target := target, zxid := s.zxid + 1, armed := false,
       inbox := if s.armed then s.inbox + [Fire(event)] else s.inbox)
  }

  function Apply(s: State, step: Step): State
    requires Enabled(s, step)
  {
    match step
    case Create(data) => Write(s, Some(Node(data, s.zxid + 1)), Created)
    case Set(data) => Write(s, Some(Node(data, s.zxid + 1)), Changed)
    case Delete => Write(s, None, Deleted)
    case Serve =>
      var rest := s.(requests := s.requests[1..]);
      if s.requests[0].AskGet? then rest.(inbox := s.inbox + [GetReply(s.target)])
      else rest.(armed := true, inbox := s.inbox + [ExistsReply(s.target.Some?, s.requests[0].cause)])
    case Deliver =>
      var (c, out) := Handle(s.client, s.inbox[0]);
      s.(client := c, inbox := s.inbox[1..], requests := s.requests + out)
  }

  predicate Init(s: State) {
    && (s.target.Some? ==> s.target.value.zxid <= s.zxid)
    && !s.armed && s.requests == [AskExists(Dummy)] && s.inbox == [] && s.client == Client(Dummy, [])
  }

  predicate IsRun(s: State, steps: seq<Step>)
    decreases |steps|
  {
    steps == [] || (Enabled(s, steps[0]) && IsRun(Apply(s, steps[0]), steps[1..]))
  }

  function End(s: State, steps: seq<Step>): State
    requires IsRun(s, steps)
    decreases |steps|
  {
    if steps == [] then s else End(Apply(s, steps[0]), steps[1..])
  }

  predicate Quiescent(s: State) { s.requests == [] && s.inbox == [] }

  /** The node the user last heard of, none after `del` or before the first notification. */
  function Last(log: seq<Note>): Option<Node> {
    if log == [] || log[|log| - 1] == DelNote then None else Some(log[|log| - 1].node)
  }

  /** The client object: callbacks that update the context's event and notify, proved to be `Handle`. */
  class PathMonitor {
    var eve: Event
    var log: seq<Note>
    var outbox: seq<Request>

    function Model(): Client
      reads this
    {
      Client(eve, log)
    }

    constructor ()
      ensures Model() == Client(Dummy, []) && outbox == [AskExists(Dummy)]
    {
      eve, log, outbox := Dummy, [], [AskExists(Dummy)];
    }

    method OnMessage(m: Msg)
      modifies this
      ensures var (c, out) := Handle(old(Model()), m);
              Model() == c && outbox == old(outbox) + out
    {
      match m {
        case ExistsReply(ok, _) =>
          if !ok && eve == Deleted {
            log := log + [DelNote];
            return;
          }
          var changed := eve == Dummy || eve == Created || eve == Changed;
          if changed {
            outbox := outbox + [AskGet];
          }
        case Fire(event) =>
          eve := event;
          outbox := outbox + [AskExists(event)];
        case GetReply(node) =>
          if node.Some? {
            log := log + [ChangedNote(node.value)];
          }
      }
    }
  }
}

/** What every run of the `watch_path` machine keeps. */
module PathWatchContext {
  import opened Seqs
  import opened Zk
  import opened PathWatch

  // ---------- the exists context's share of the wires ----------

  function Checks(q: seq<Request>): seq<Request> {
    if q == [] then [] else (if q[0].AskExists? then [q[0]] else []) + Checks(q[1..])
  }

  function CheckMsgs(q: seq<Msg>): seq<Msg> {
    if q == [] then [] else (if q[0].GetReply? then [] else [q[0]]) + CheckMsgs(q[1..])
  }

  lemma {:induction false} ChecksAppend(p: seq<Request>, q: seq<Request>)
    ensures Checks(p + q) == Checks(p) + Checks(q)
  {
    if p == [] {
      assert p + q == q;
    } else {
      assert (p + q)[0] == p[0] && (p + q)[1..] == p[1..] + q;
      ChecksAppend(p[1..], q);
      var head := if p[0].AskExists? then [p[0]] else [];
      Associates(head, Checks(p[1..]), Checks(q));
    }
  }

  lemma {:induction false} CheckMsgsAppend(p: seq<Msg>, q: seq<Msg>)
    ensures CheckMsgs(p + q) == CheckMsgs(p) + CheckMsgs(q)
  {
    if p == [] {
      assert p + q == q;
    } else {
      assert (p + q)[0] == p[0] && (p + q)[1..] == p[1..] + q;
      CheckMsgsAppend(p[1..], q);
      var head := if p[0].GetReply? then [] else [p[0]];
      Associates(head, CheckMsgs(p[1..]), CheckMsgs(q));
    }
  }

  lemma ChecksSnoc(q: seq<Request>, r: Request)
    ensures Checks(q + [r]) == Checks(q) + if r.AskExists? then [r] else []
  {
    ChecksAppend(q, [r]);
    assert [r][1..] == [];
  }

  lemma CheckMsgsSnoc(q: seq<Msg>, m: Msg)
    ensures CheckMsgs(q + [m]) == CheckMsgs(q) + if m.GetReply? then [] else [m]
  {
    CheckMsgsAppend(q, [m]);
    assert [m][1..] == [];
  }

  /** The exists context is requested, armed or fired - exactly one of them - and a reply that has
      not been handled was caused by the context's current event. */
  predicate Cycle(eve: Event, rs: seq<Request>, armed: bool, ms: seq<Msg>) {
    || (rs == [AskExists(eve)] && !armed && ms == [])
    || (rs == [] && armed && ms == [])
    || (rs == [] && armed && |ms| == 1 && ms[0].ExistsReply? && ms[0].cause == eve)
    || (rs == [] && !armed && |ms| == 1 && ms[0].Fire? && ms[0].event != Dummy)
    || (rs == [] && !armed && |ms| == 2
        && ms[0].ExistsReply? && ms[0].cause == eve && ms[1].Fire? && ms[1].event != Dummy)
  }

  predicate ContextOk(s: State) {
    && Cycle(s.client.eve, Checks(s.requests), s.armed, CheckMsgs(s.inbox))
    && s.client.eve != Child
    && (forall m :: m in CheckMsgs(s.inbox) && m.Fire? ==> m.event != Child)
  }

  lemma StepKeepsContext(s: State, step: Step)
    requires ContextOk(s) && Enabled(s, step)
    ensures ContextOk(Apply(s, step))
  {
    match step
    case Create(data) => WriteKeepsContext(s, Some(Node(data, s.zxid + 1)), Created);
    case Set(data) => WriteKeepsContext(s, Some(Node(data, s.zxid + 1)), Changed);
    case Delete => WriteKeepsContext(s, None, Deleted);
    case Serve => ServeKeepsContext(s);
    case Deliver => if s.inbox[0].Fire? { FireKeepsContext(s); } else { ReplyKeepsContext(s); }
  }

  lemma WriteKeepsContext(s: State, target: Option<Node>, event: Event)
    requires ContextOk(s) && event != Dummy && event != Child
    ensures ContextOk(Write(s, target, event))
  {
    CheckMsgsSnoc(s.inbox, Fire(event));
  }

  lemma FireKeepsContext(s: State)
    requires ContextOk(s) && s.inbox != [] && s.inbox[0].Fire?
    ensures ContextOk(Apply(s, Deliver))
  {
    var ms := CheckMsgs(s.inbox);
    assert ms[0] == s.inbox[0] && ms[1..] == CheckMsgs(s.inbox[1..]);
    ChecksSnoc(s.requests, AskExists(s.inbox[0].event));
  }

  lemma ReplyKeepsContext(s: State)
    requires ContextOk(s) && s.inbox != [] && !s.inbox[0].Fire?
    ensures ContextOk(Apply(s, Deliver))
  {
    var ms := CheckMsgs(s.inbox);
    SilentChecks(s.requests, Handle(s.client, s.inbox[0]).1);
    if s.inbox[0].ExistsReply? {
      assert ms == [s.inbox[0]] + CheckMsgs(s.inbox[1..]);
      assert ms[1..] == CheckMsgs(s.inbox[1..]);
    } else {
      assert ms == [] + CheckMsgs(s.inbox[1..]);
    }
  }

  /** A read is no check. */
  lemma SilentChecks(q: seq<Request>, out: seq<Request>)
    requires out == [] || out == [AskGet]
    ensures Checks(q + out) == Checks(q)
  {
    if out == [] { assert q + out == q; } else { ChecksSnoc(q, AskGet); }
  }

  lemma ServeKeepsContext(s: State)
    requires ContextOk(s) && Enabled(s, Serve)
    ensures ContextOk(Apply(s, Serve))
  {
    var t := Apply(s, Serve);
    assert t.inbox == s.inbox + [t.inbox[|s.inbox|]];
    CheckMsgsSnoc(s.inbox, t.inbox[|s.inbox|]);
    if s.requests[0].AskGet? {
      assert Checks(t.requests) == Checks(s.requests);
      assert CheckMsgs(t.inbox) == CheckMsgs(s.inbox);
    } else {
      assert Checks(s.requests) == [s.requests[0]] + Checks(t.requests);
      assert Checks(s.requests)[0] == s.requests[0] && |Checks(t.requests)| == 0;
    }
  }

  // ---------- versions never go backwards ----------

  /** The zxids the user has been and will be told, in order. */
  function Told(log: seq<Note>): seq<nat> {
    if log == [] then []
    else Told(log[..|log| - 1]) + if log[|log| - 1].ChangedNote? then [log[|log| - 1].node.zxid] else []
  }

  function Coming(q: seq<Msg>): seq<nat> {
    if q == [] then []
    else (if q[0].GetReply? && q[0].node.Some? then [q[0].node.value.zxid] else []) + Coming(q[1..])
  }

  lemma {:induction false} ComingSnoc(q: seq<Msg>, m: Msg)
    ensures Coming(q + [m]) == Coming(q) + if m.GetReply? && m.node.Some? then [m.node.value.zxid] else []
  {
    if q == [] {
      assert q + [m] == [m] && [m][1..] == [];
    } else {
      var all := q + [m];
      assert all[0] == q[0] && all[1..] == q[1..] + [m];
      ComingSnoc(q[1..], m);
      var head := if q[0].GetReply? && q[0].node.Some? then [q[0].node.value.zxid] else [];
      var tail := if m.GetReply? && m.node.Some? then [m.node.value.zxid] else [];
      Associates(head, Coming(q[1..]), tail);
    }
  }

  predicate Ascending(q: seq<nat>) { forall i, j :: 0 <= i < j < |q| ==> q[i] <= q[j] }

  function Latest(s: State): nat { if s.target.Some? then s.target.value.zxid else s.zxid }

  predicate VersionsOk(s: State) {
    Latest(s) <= s.zxid && Ascending(Stream(s)) && forall z :: z in Stream(s) ==> z <= Latest(s)
  }

  function Stream(s: State): seq<nat> { Told(s.client.log) + Coming(s.inbox) }

  /** Delivering moves a version from the queue to the log; everything else appends at most the
      target's current version. */
  lemma StreamStep(s: State, step: Step)
    requires Enabled(s, step)
    ensures var t := Apply(s, step);
            Stream(t) == Stream(s) || (s.target.Some? && t.target == s.target && Stream(t) == Stream(s) + [Latest(s)])
  {
    var t := Apply(s, step);
    if step.Deliver? {
      DeliverStream(s);
    } else if t.inbox != s.inbox {
      var m := t.inbox[|s.inbox|];
      assert t.inbox == s.inbox + [m];
      ComingSnoc(s.inbox, m);
    }
  }

  lemma DeliverStream(s: State)
    requires s.inbox != []
    ensures Stream(Apply(s, Deliver)) == Stream(s)
  {
    HandleTells(s.client, s.inbox[0]);
    ComingHead(s.inbox);
    Associates(Told(s.client.log), Version(s.inbox[0]), Coming(s.inbox[1..]));
  }

  /** The version a message brings, if it brings one. */
  function Version(m: Msg): seq<nat> { if m.GetReply? && m.node.Some? then [m.node.value.zxid] else [] }

  lemma ComingHead(q: seq<Msg>)
    requires q != []
    ensures Coming(q) == Version(q[0]) + Coming(q[1..])
  {}

  lemma HandleTells(c: Client, m: Msg)
    ensures Told(Handle(c, m).0.log) == Told(c.log) + Version(m)
  {
    match m
    case GetReply(node) => if node.Some? { ToldMore(c.log, ChangedNote(node.value)); }
    case ExistsReply(ok, _) => if !ok && c.eve == Deleted { ToldMore(c.log, DelNote); }
    case Fire(_) =>
  }

  lemma ToldMore(log: seq<Note>, n: Note)
    ensures Told(log + [n]) == Told(log) + if n.ChangedNote? then [n.node.zxid] else []
  {
    assert (log + [n])[..|log|] == log;
  }

  lemma AscendingSnoc(q: seq<nat>, z: nat)
    requires Ascending(q) && forall y :: y in q ==> y <= z
    ensures Ascending(q + [z]) && forall y :: y in q + [z] ==> y <= z
  {
    assert forall i :: 0 <= i < |q| ==> q[i] in q;
  }

  lemma StepKeepsVersions(s: State, step: Step)
    requires VersionsOk(s) && Enabled(s, step)
    ensures VersionsOk(Apply(s, step))
  {
    StreamStep(s, step);
    AscendingSnoc(Stream(s), Latest(s));
  }

  lemma {:induction false} RunKeepsContext(s: State, steps: seq<Step>)
    requires ContextOk(s) && VersionsOk(s) && IsRun(s, steps)
    ensures ContextOk(End(s, steps)) && VersionsOk(End(s, steps))
    decreases |steps|
  {
    if steps != [] {
      StepKeepsContext(s, steps[0]);
      StepKeepsVersions(s, steps[0]);
      RunKeepsContext(Apply(s, steps[0]), steps[1..]);
    }
  }

  lemma InitOk(s: State)
    requires Init(s)
    ensures ContextOk(s) && VersionsOk(s)
  {
    assert Checks(s.requests[1..]) == [];
  }

  /** Whatever the server does to the target, the versions the user is told never go backwards. */
  lemma NotifiedVersionsAscend(s: State, steps: seq<Step>)
    requires Init(s) && IsRun(s, steps)
    ensures Ascending(Told(End(s, steps).client.log))
  {
    InitOk(s);
    RunKeepsContext(s, steps);
    var t := End(s, steps);
    var told, q := Told(t.client.log), Told(t.client.log) + Coming(t.inbox);
    assert forall i :: 0 <= i < |told| ==> told[i] == q[i];
  }
}
