/**
 * Convergence of `watch_path`, with the exact condition on the writes of other clients: the last
 * notification matches the target in every quiescent state if and only if no write was unsafe.
 */
module PathWatchConvergence {
  import opened Zk
  import opened PathWatch
  import opened PathWatchContext

  /** The event whose check is still to be answered; none when the watch is armed. */
  function Pending(s: State): Option<Event> {
    var rs, ms := Checks(s.requests), CheckMsgs(s.inbox);
    if rs != [] && rs[0].AskExists? then Some(rs[0].cause)
    else if ms != [] && ms[|ms| - 1].Fire? then Some(ms[|ms| - 1].event)
    else None
  }

  /** A read is on its way to the server, or the reply that will send one is queued. */
  predicate Fetching(s: State) {
    var ms := CheckMsgs(s.inbox);
    AskGet in s.requests || (ms != [] && ms[0].ExistsReply? && Fetches(ms[0].cause))
  }

  function Effect(view: Option<Node>, m: Msg): Option<Node> {
    if m.GetReply? && m.node.Some? then m.node
    else if m == ExistsReply(false, Deleted) then None
    else view
  }

  /** What the user will have been told once every message now in the queue has been handled. */
  function Outlook(view: Option<Node>, q: seq<Msg>): Option<Node>
    decreases |q|
  {
    if q == [] then view else Outlook(Effect(view, q[0]), q[1..])
  }

  function View(s: State): Option<Node> { Outlook(Last(s.client.log), s.inbox) }

  lemma {:induction false} OutlookSnoc(view: Option<Node>, q: seq<Msg>, m: Msg)
    ensures Outlook(view, q + [m]) == Effect(Outlook(view, q), m)
    decreases |q|
  {
    if q == [] {
      assert q + [m] == [m] && [m][1..] == [];
    } else {
      assert (q + [m])[1..] == q[1..] + [m];
      OutlookSnoc(Effect(view, q[0]), q[1..], m);
    }
  }

  // ---------- the discipline and the invariant ----------

  /** A deletion is missed when it hits between a change and its check and the user knows the node. */
  predicate SafeDelete(s: State) {
    Pending(s).None? || Pending(s) == Some(Deleted) || View(s).None?
  }

  /** A write is missed when it comes between a deletion and its check and no read is on its way. */
  predicate SafeWrite(s: State) {
    Pending(s) != Some(Deleted) || Fetching(s)
  }

  predicate Safe(s: State, step: Step) {
    match step
    case Delete => SafeDelete(s)
    case Create(_) => SafeWrite(s)
    case Set(_) => SafeWrite(s)
    case _ => true
  }

  predicate InStep(s: State) {
    if s.target.Some? then
      Pending(s).None? || Pending(s) == Some(Deleted) ==> Fetching(s) || View(s) == s.target
    else
      Pending(s) == Some(Deleted) || View(s).None?
  }

  predicate Ok(s: State) { ContextOk(s) && VersionsOk(s) }

  lemma StepKeepsOk(s: State, step: Step)
    requires Ok(s) && Enabled(s, step)
    ensures Ok(Apply(s, step))
  {
    StepKeepsContext(s, step);
    StepKeepsVersions(s, step);
  }

  // ---------- how each step moves the three quantities ----------

  lemma WriteEffect(s: State, target: Option<Node>, event: Event)
    requires ContextOk(s)
    ensures var t := Write(s, target, event);
            && View(t) == View(s) && Fetching(t) == Fetching(s)
            && Pending(t) == (if s.armed then Some(event) else Pending(s))
            && (s.armed <==> Pending(s).None?)
  {
    OutlookSnoc(Last(s.client.log), s.inbox, Fire(event));
    CheckMsgsSnoc(s.inbox, Fire(event));
  }

  lemma ServeGetEffect(s: State)
    requires ContextOk(s) && s.requests != [] && s.requests[0].AskGet?
    ensures var t := Apply(s, Serve);
            && View(t) == (if s.target.Some? then s.target else View(s))
            && Pending(t) == Pending(s) && (Fetching(t) ==> Fetching(s))
  {
    OutlookSnoc(Last(s.client.log), s.inbox, GetReply(s.target));
    CheckMsgsSnoc(s.inbox, GetReply(s.target));
    assert Checks(s.requests[1..]) == Checks(s.requests);
  }

  lemma ServeCheckEffect(s: State)
    requires ContextOk(s) && s.requests != [] && s.requests[0].AskExists?
    ensures var t, cause := Apply(s, Serve), s.requests[0].cause;
            && Pending(s) == Some(cause) && Pending(t).None? && (Fetches(cause) || cause == Deleted)
            && View(t) == (if s.target.None? && cause == Deleted then None else View(s))
            && (Fetching(t) <==> Fetching(s) || Fetches(cause))
  {
    var m := ExistsReply(s.target.Some?, s.requests[0].cause);
    OutlookSnoc(Last(s.client.log), s.inbox, m);
    CheckMsgsSnoc(s.inbox, m);
    assert Checks(s.requests) == [s.requests[0]] + Checks(s.requests[1..]);
    assert Checks(s.requests)[0] == s.requests[0] && |Checks(s.requests[1..])| == 0;
    assert AskGet in s.requests <==> AskGet in s.requests[1..];
  }

  lemma DeliverLog(s: State)
    requires ContextOk(s) && s.inbox != []
    ensures Last(Apply(s, Deliver).client.log) == Effect(Last(s.client.log), s.inbox[0])
  {
    var m := s.inbox[0];
    if m.ExistsReply? { assert CheckMsgs(s.inbox)[0] == m; }
  }

  lemma DeliverEffect(s: State)
    requires ContextOk(s) && s.inbox != []
    ensures var t := Apply(s, Deliver);
            View(t) == View(s) && Pending(t) == Pending(s) && (Fetching(t) <==> Fetching(s))
  {
    DeliverLog(s);
    DeliverChecks(s);
  }

  lemma DeliverChecks(s: State)
    requires ContextOk(s) && s.inbox != []
    ensures var t := Apply(s, Deliver); Pending(t) == Pending(s) && (Fetching(t) <==> Fetching(s))
  {
    match s.inbox[0]
    case GetReply(_) => assert s.requests + [] == s.requests;
    case ExistsReply(_, _) => DeliverCheckReply(s);
    case Fire(_) => DeliverFire(s);
  }

  lemma DeliverCheckReply(s: State)
    requires ContextOk(s) && s.inbox != [] && s.inbox[0].ExistsReply?
    ensures var t := Apply(s, Deliver); Pending(t) == Pending(s) && (Fetching(t) <==> Fetching(s))
  {
    var out, ms := Handle(s.client, s.inbox[0]).1, CheckMsgs(s.inbox);
    assert ms[0] == s.inbox[0] && ms[1..] == CheckMsgs(s.inbox[1..]);
    if out == [] { assert s.requests + [] == s.requests; } else { ChecksSnoc(s.requests, AskGet); }
    assert AskGet in s.requests + out <==> AskGet in s.requests || out == [AskGet];
  }

  lemma DeliverFire(s: State)
    requires ContextOk(s) && s.inbox != [] && s.inbox[0].Fire?
    ensures var t := Apply(s, Deliver); Pending(t) == Pending(s) && (Fetching(t) <==> Fetching(s))
  {
    var ask, ms := AskExists(s.inbox[0].event), CheckMsgs(s.inbox);
    assert ms[0] == s.inbox[0] && ms[1..] == CheckMsgs(s.inbox[1..]);
    ChecksSnoc(s.requests, ask);
    assert AskGet in s.requests + [ask] <==> AskGet in s.requests;
  }

  lemma StepKeepsInStep(s: State, step: Step)
    requires Ok(s) && InStep(s) && Enabled(s, step) && Safe(s, step)
    ensures InStep(Apply(s, step))
  {
    match step
    case Create(data) => WriteEffect(s, Some(Node(data, s.zxid + 1)), Created);
    case Set(data) => WriteEffect(s, Some(Node(data, s.zxid + 1)), Changed);
    case Delete => WriteEffect(s, None, Deleted);
    case Serve => if s.requests[0].AskGet? { ServeGetEffect(s); } else { ServeCheckEffect(s); }
    case Deliver => DeliverEffect(s);
  }

  predicate DisciplinedRun(s: State, steps: seq<Step>)
    decreases |steps|
  {
    steps == [] || (Enabled(s, steps[0]) && Safe(s, steps[0]) && DisciplinedRun(Apply(s, steps[0]), steps[1..]))
  }

  lemma {:induction false} RunKeepsInStep(s: State, steps: seq<Step>)
    requires Ok(s) && InStep(s) && DisciplinedRun(s, steps)
    ensures IsRun(s, steps) && Ok(End(s, steps)) && InStep(End(s, steps))
    decreases |steps|
  {
    if steps != [] {
      StepKeepsOk(s, steps[0]);
      StepKeepsInStep(s, steps[0]);
      RunKeepsInStep(Apply(s, steps[0]), steps[1..]);
    }
  }

  /** The last notification is `changed` with the target's current value and version, or `del` or
      nothing when the target is absent. */
  predicate Converged(s: State) { Last(s.client.log) == s.target }

  /** In every quiescent state of a disciplined run the last notification matches the target. */
  lemma Convergence(s: State, steps: seq<Step>)
    requires Init(s) && DisciplinedRun(s, steps)
    ensures IsRun(s, steps)
    ensures Quiescent(End(s, steps)) ==> Converged(End(s, steps))
  {
    InitOk(s);
    assert Checks(s.requests)[0] == AskExists(Dummy);
    RunKeepsInStep(s, steps);
  }

  /** Runs that never delete the target are disciplined, whatever else happens. */
  lemma {:induction false} WithoutDeletesDisciplined(s: State, steps: seq<Step>)
    requires Ok(s) && IsRun(s, steps) && Pending(s) != Some(Deleted)
    requires forall i :: 0 <= i < |steps| ==> steps[i] != Delete
    ensures DisciplinedRun(s, steps)
    decreases |steps|
  {
    if steps != [] {
      var step := steps[0];
      StepKeepsOk(s, step);
      match step {
        case Create(data) => WriteEffect(s, Some(Node(data, s.zxid + 1)), Created);
        case Set(data) => WriteEffect(s, Some(Node(data, s.zxid + 1)), Changed);
        case Serve => if s.requests[0].AskGet? { ServeGetEffect(s); } else { ServeCheckEffect(s); }
        case Deliver => DeliverEffect(s);
        case Delete =>
      }
      WithoutDeletesDisciplined(Apply(s, step), steps[1..]);
    }
  }

  // ---------- the discipline is exact ----------

  function RequestWork(q: seq<Request>, checks: bool): nat {
    if q == [] then 0 else (if q[0].AskExists? == checks then 2 else 0) + RequestWork(q[1..], checks)
  }

  function MsgWork(q: seq<Msg>, checks: bool): nat {
    if q == [] then 0
    else (if q[0].GetReply? == checks then 0 else if q[0].Fire? then 3 else 1) + MsgWork(q[1..], checks)
  }

  function Work(s: State, checks: bool): nat { RequestWork(s.requests, checks) + MsgWork(s.inbox, checks) }

  lemma {:induction false} RequestWorkSnoc(q: seq<Request>, r: Request, checks: bool)
    ensures RequestWork(q + [r], checks) == RequestWork(q, checks) + if r.AskExists? == checks then 2 else 0
  {
    if q == [] {
      assert q + [r] == [r] && [r][1..] == [];
    } else {
      assert (q + [r])[1..] == q[1..] + [r];
      RequestWorkSnoc(q[1..], r, checks);
    }
  }

  lemma {:induction false} MsgWorkSnoc(q: seq<Msg>, m: Msg, checks: bool)
    ensures MsgWork(q + [m], checks) ==
            MsgWork(q, checks) + if m.GetReply? == checks then 0 else if m.Fire? then 3 else 1
  {
    if q == [] {
      assert q + [m] == [m] && [m][1..] == [];
    } else {
      assert (q + [m])[1..] == q[1..] + [m];
      MsgWorkSnoc(q[1..], m, checks);
    }
  }

  lemma StepWorks(s: State, step: Step)
    requires Enabled(s, step) && (step == Serve || step == Deliver)
    ensures var t := Apply(s, step);
            || Work(t, true) < Work(s, true)
            || (Work(t, true) == Work(s, true) && Work(t, false) < Work(s, false))
  {
    var t := Apply(s, step);
    if step == Serve {
      var m := t.inbox[|s.inbox|];
      assert t.inbox == s.inbox + [m];
      MsgWorkSnoc(s.inbox, m, true);
      MsgWorkSnoc(s.inbox, m, false);
    } else {
      var out := Handle(s.client, s.inbox[0]).1;
      if out != [] {
        RequestWorkSnoc(s.requests, out[0], true);
        RequestWorkSnoc(s.requests, out[0], false);
      } else {
        assert s.requests + [] == s.requests;
      }
    }
  }

  predicate Drains(s: State, steps: seq<Step>) {
    IsRun(s, steps) && forall i :: 0 <= i < |steps| ==> steps[i] == Serve || steps[i] == Deliver
  }

  /** The messages always drain to a quiescent state. */
  lemma {:induction false} DrainEnds(s: State) returns (steps: seq<Step>)
    ensures Drains(s, steps) && Quiescent(End(s, steps))
    decreases Work(s, true), Work(s, false)
  {
    if Quiescent(s) {
      steps := [];
    } else {
      var step := if s.inbox != [] then Deliver else Serve;
      StepWorks(s, step);
      var rest := DrainEnds(Apply(s, step));
      steps := [step] + rest;
      assert steps[1..] == rest;
    }
  }

  /** The user still holds a node the server has lost, or holds another version than the server's,
      and nothing on the wires will put it right. */
  predicate Stuck(s: State) {
    if s.target.None? then View(s).Some? && Pending(s) != Some(Deleted)
    else View(s) != s.target && !Fetching(s) && (Pending(s).None? || Pending(s) == Some(Deleted))
  }

  lemma {:induction false} DrainKeepsStuck(s: State, steps: seq<Step>)
    requires Ok(s) && Stuck(s) && Drains(s, steps)
    ensures Stuck(End(s, steps)) && End(s, steps).target == s.target && View(End(s, steps)) == View(s)
    decreases |steps|
  {
    if steps != [] {
      var step := steps[0];
      StepKeepsOk(s, step);
      if step == Deliver { DeliverEffect(s); }
      else if s.requests[0].AskGet? { ServeGetEffect(s); }
      else { ServeCheckEffect(s); }
      DrainKeepsStuck(Apply(s, step), steps[1..]);
    }
  }

  lemma {:induction false} OutlookComes(view: Option<Node>, q: seq<Msg>)
    ensures Outlook(view, q).None? || Outlook(view, q) == view || Outlook(view, q).value.zxid in Coming(q)
    decreases |q|
  {
    if q != [] { OutlookComes(Effect(view, q[0]), q[1..]); }
  }

  /** A new version is never what the user was told before. */
  lemma ViewIsOld(s: State)
    requires VersionsOk(s)
    ensures View(s).Some? ==> View(s).value.zxid <= s.zxid
  {
    OutlookComes(Last(s.client.log), s.inbox);
    if Last(s.client.log).Some? { assert Last(s.client.log).value.zxid in Told(s.client.log); }
    if View(s).Some? { assert View(s).value.zxid in Stream(s); }
  }

  lemma UnsafeSticks(s: State, step: Step)
    requires Ok(s) && Enabled(s, step) && !Safe(s, step)
    ensures Stuck(Apply(s, step))
  {
    ViewIsOld(s);
    match step
    case Create(data) => WriteEffect(s, Some(Node(data, s.zxid + 1)), Created);
    case Set(data) => WriteEffect(s, Some(Node(data, s.zxid + 1)), Changed);
    case Delete => WriteEffect(s, None, Deleted);
  }

  lemma {:induction false} DrainIsDisciplined(s: State, steps: seq<Step>)
    requires Drains(s, steps)
    ensures DisciplinedRun(s, steps)
    decreases |steps|
  {
    if steps != [] { DrainIsDisciplined(Apply(s, steps[0]), steps[1..]); }
  }

  ghost predicate AlwaysConverges(s: State) {
    forall steps :: Drains(s, steps) && Quiescent(End(s, steps)) ==> Converged(End(s, steps))
  }

  ghost predicate NeverConverges(s: State) {
    forall steps :: Drains(s, steps) && Quiescent(End(s, steps)) ==> !Converged(End(s, steps))
  }

  /** After a disciplined run, a step is safe if and only if every way of letting the messages
      drain after it ends with the last notification matching the target; after an unsafe step none
      does. */
  lemma SafeExactlyWhenConverging(init: State, past: seq<Step>, step: Step)
    requires Init(init) && DisciplinedRun(init, past) && IsRun(init, past)
    requires Enabled(End(init, past), step)
    ensures var s := End(init, past);
            && (Safe(s, step) <==> AlwaysConverges(Apply(s, step)))
            && (!Safe(s, step) <==> NeverConverges(Apply(s, step)))
  {
    var s := End(init, past);
    InitOk(init);
    assert Checks(init.requests)[0] == AskExists(Dummy);
    RunKeepsInStep(init, past);
    StepKeepsOk(s, step);
    var drain := DrainEnds(Apply(s, step));
    if Safe(s, step) {
      StepKeepsInStep(s, step);
      InStepConverges(Apply(s, step));
    } else {
      UnsafeSticks(s, step);
      StuckNeverConverges(Apply(s, step));
    }
  }

  lemma InStepConverges(t: State)
    requires Ok(t) && InStep(t)
    ensures AlwaysConverges(t)
  {
    forall steps | Drains(t, steps) && Quiescent(End(t, steps)) ensures Converged(End(t, steps)) {
      DrainIsDisciplined(t, steps);
      RunKeepsInStep(t, steps);
    }
  }

  lemma StuckNeverConverges(t: State)
    requires Ok(t) && Stuck(t)
    ensures NeverConverges(t)
  {
    forall steps | Drains(t, steps) && Quiescent(End(t, steps)) ensures !Converged(End(t, steps)) {
      DrainKeepsStuck(t, steps);
    }
  }

  /** A target that may be absent at first and is never deleted: in every quiescent state of every
      run the last notification is `changed` with its current value and version. */
  lemma NeverDeletedConverges(s: State, steps: seq<Step>)
    requires Init(s) && IsRun(s, steps) && Quiescent(End(s, steps))
    requires forall i :: 0 <= i < |steps| ==> steps[i] != Delete
    ensures Converged(End(s, steps))
  {
    InitOk(s);
    assert Checks(s.requests)[0] == AskExists(Dummy);
    WithoutDeletesDisciplined(s, steps);
    Convergence(s, steps);
  }

  // ---------- a deletion and re-creation that goes unnoticed ----------

  const FIRST := Some(Node(None, 0))

  const START := State(FIRST, 0, false, [AskExists(Dummy)], [], Client(Dummy, []))

  const WATCHING := State(FIRST, 0, true, [], [], Client(Dummy, [ChangedNote(Node(None, 0))]))

  const UNTIL_TOLD := [Serve, Deliver, Serve, Deliver]

  lemma ToldFirst()
    ensures DisciplinedRun(START, UNTIL_TOLD) && IsRun(START, UNTIL_TOLD) && End(START, UNTIL_TOLD) == WATCHING
  {
    var s1 := Apply(START, Serve);
    var s2 := Apply(s1, Deliver);
    var s3 := Apply(s2, Serve);
    assert UNTIL_TOLD[1..] == [Deliver, Serve, Deliver] && UNTIL_TOLD[1..][1..] == [Serve, Deliver];
    assert [Serve, Deliver][1..] == [Deliver] && [Deliver][1..] == [];
    assert s2.requests == [AskGet] && s3.requests == [] && Apply(s3, Deliver) == WATCHING;
    assert DisciplinedRun(s3, [Deliver]) && IsRun(s3, [Deliver]) && End(s3, [Deliver]) == WATCHING;
    assert DisciplinedRun(s2, [Serve, Deliver]) && IsRun(s2, [Serve, Deliver]) && End(s2, [Serve, Deliver]) == WATCHING;
  }

  lemma {:induction false} OneMoreStep(s: State, past: seq<Step>, step: Step)
    requires DisciplinedRun(s, past) && IsRun(s, past) && Enabled(End(s, past), step) && Safe(End(s, past), step)
    ensures DisciplinedRun(s, past + [step]) && IsRun(s, past + [step])
    ensures End(s, past + [step]) == Apply(End(s, past), step)
    decreases |past|
  {
    var all := past + [step];
    if past == [] {
      assert all == [step] && all[1..] == [];
    } else {
      assert all[0] == past[0] && all[1..] == past[1..] + [step];
      OneMoreStep(Apply(s, past[0]), past[1..], step);
    }
  }

  /** However the messages drain, the target is there with this data and the user still holds the
      first version. */
  ghost predicate NeverReported(s: State, data: Data) {
    forall steps :: Drains(s, steps) && Quiescent(End(s, steps)) ==>
      var t := End(s, steps);
      t.target.Some? && t.target.value.data == data && Last(t.client.log) == FIRST
  }

  /** Deleted once the user has been told, and created again before the re-check: the new value is
      never reported. */
  lemma RecreationIsMissed(data: Data)
    ensures var past := UNTIL_TOLD + [Delete];
            && Init(START) && DisciplinedRun(START, past) && IsRun(START, past)
            && Enabled(End(START, past), Create(data)) && NeverReported(Apply(End(START, past), Create(data)), data)
  {
    ToldFirst();
    assert Safe(WATCHING, Delete);
    OneMoreStep(START, UNTIL_TOLD, Delete);
    InitOk(START);
    assert Checks(START.requests)[0] == AskExists(Dummy);
    RunKeepsInStep(START, UNTIL_TOLD + [Delete]);
    DeletedState();
    RecreatedSticks(Apply(WATCHING, Delete), data);
  }

  lemma DeletedState()
    ensures var t := Apply(WATCHING, Delete);
            Pending(t) == Some(Deleted) && !Fetching(t) && View(t) == FIRST && t.target == None
  {
    var t := Apply(WATCHING, Delete);
    var rest: seq<Msg> := [];
    assert t.inbox == [Fire(Deleted)] && t.inbox[1..] == rest;
    assert CheckMsgs(rest) == [] && CheckMsgs(t.inbox) == [Fire(Deleted)] + CheckMsgs(rest);
    assert Last(t.client.log) == FIRST && Outlook(FIRST, rest) == FIRST;
    assert Outlook(FIRST, t.inbox) == Outlook(Effect(FIRST, Fire(Deleted)), rest);
  }

  /** A target re-created while its deletion is still to be checked. */
  lemma RecreatedSticks(s: State, data: Data)
    requires Ok(s) && s.target == None && Pending(s) == Some(Deleted) && !Fetching(s) && View(s) == FIRST
    ensures NeverReported(Apply(s, Create(data)), data)
  {
    var t := Apply(s, Create(data));
    StepKeepsOk(s, Create(data));
    UnsafeSticks(s, Create(data));
    WriteEffect(s, t.target, Created);
    forall steps | Drains(t, steps) && Quiescent(End(t, steps))
      ensures Last(End(t, steps).client.log) == FIRST && End(t, steps).target == t.target
    {
      DrainKeepsStuck(t, steps);
      assert View(End(t, steps)) == Last(End(t, steps).client.log);
    }
  }
}
