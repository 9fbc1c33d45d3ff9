/**
 * What the user of `watch_path` is told on the way, in every run: the log of notifications and what
 * the queue still holds are together the server's own history of successful reads and of absences
 * found after a deletion; each `del` answers its own deletion, each `changed` its own write.
 */
module PathWatchHistory {
  import opened Seqs
  import opened Zk
  import opened PathWatch
  import opened PathWatchContext

  // ---------- the server's history ----------

  /** What the server's part of a step is to be told as: a read that finds the target, and a check
      after a deletion that does not. */
  function Announced(s: State, step: Step): seq<Note>
    requires Enabled(s, step)
  {
    if !step.Serve? then []
    else if s.requests[0].AskGet? then (if s.target.Some? then [ChangedNote(s.target.value)] else [])
    else if s.requests[0].cause == Deleted && s.target.None? then [DelNote]
    else []
  }

  function History(s: State, steps: seq<Step>): seq<Note>
    requires IsRun(s, steps)
    decreases |steps|
  {
    if steps == [] then [] else Announced(s, steps[0]) + History(Apply(s, steps[0]), steps[1..])
  }

  /** What a message in the queue is to be told as. */
  function Notice(m: Msg): seq<Note> {
    if m.GetReply? && m.node.Some? then [ChangedNote(m.node.value)]
    else if m == ExistsReply(false, Deleted) then [DelNote]
    else []
  }

  function Queued(q: seq<Msg>): seq<Note> {
    if q == [] then [] else Notice(q[0]) + Queued(q[1..])
  }

  lemma {:induction false} QueuedSnoc(q: seq<Msg>, m: Msg)
    ensures Queued(q + [m]) == Queued(q) + Notice(m)
  {
    if q == [] {
      assert q + [m] == [m] && [m][1..] == [];
    } else {
      assert (q + [m])[0] == q[0] && (q + [m])[1..] == q[1..] + [m];
      QueuedSnoc(q[1..], m);
      Associates(Notice(q[0]), Queued(q[1..]), Notice(m));
    }
  }

  /** Handling a message tells exactly its notice. */
  lemma DeliverTells(s: State)
    requires ContextOk(s) && s.inbox != []
    ensures Apply(s, Deliver).client.log == s.client.log + Notice(s.inbox[0])
  {
    if s.inbox[0].ExistsReply? { assert CheckMsgs(s.inbox)[0] == s.inbox[0]; }
  }

  function Stream(s: State): seq<Note> { s.client.log + Queued(s.inbox) }

  lemma StepAnnounces(s: State, step: Step)
    requires ContextOk(s) && Enabled(s, step)
    ensures Stream(Apply(s, step)) == Stream(s) + Announced(s, step)
  {
    var t := Apply(s, step);
    if step.Deliver? {
      DeliverTells(s);
      Associates(s.client.log, Notice(s.inbox[0]), Queued(s.inbox[1..]));
    } else if t.inbox != s.inbox {
      var m := t.inbox[|s.inbox|];
      assert t.inbox == s.inbox + [m];
      QueuedSnoc(s.inbox, m);
      Associates(s.client.log, Queued(s.inbox), Announced(s, step));
    }
  }

  lemma {:induction false} RunAnnounces(s: State, steps: seq<Step>)
    requires ContextOk(s) && IsRun(s, steps)
    ensures Stream(End(s, steps)) == Stream(s) + History(s, steps)
    decreases |steps|
  {
    if steps != [] {
      StepKeepsContext(s, steps[0]);
      StepAnnounces(s, steps[0]);
      RunAnnounces(Apply(s, steps[0]), steps[1..]);
      Associates(Stream(s), Announced(s, steps[0]), History(Apply(s, steps[0]), steps[1..]));
    }
  }

  /** In every run the user has been told the first part of the server's history, and the queue
      holds the rest. */
  lemma LogIsHistory(s: State, steps: seq<Step>)
    requires Init(s) && IsRun(s, steps)
    ensures var t := End(s, steps); t.client.log + Queued(t.inbox) == History(s, steps)
    ensures Quiescent(End(s, steps)) ==> End(s, steps).client.log == History(s, steps)
  {
    InitOk(s);
    RunAnnounces(s, steps);
    assert Stream(s) == [];
    var t := End(s, steps);
    assert t.client.log + [] == t.client.log;
  }

  // ---------- what is told was so ----------

  /** Every version the user is told of was the target when a read of it was answered. */
  lemma ChangesAreReal(s: State, steps: seq<Step>, n: Node)
    requires Init(s) && IsRun(s, steps) && ChangedNote(n) in End(s, steps).client.log
    ensures exists k: nat :: k < |steps| && steps[k].Serve? && IsRun(s, steps[..k]) &&
              End(s, steps[..k]).target == Some(n)
  {
    LogIsHistory(s, steps);
    var k := ReadAt(s, steps, n);
  }

  lemma {:induction false} ReadAt(s: State, steps: seq<Step>, n: Node) returns (k: nat)
    requires IsRun(s, steps) && ChangedNote(n) in History(s, steps)
    ensures k < |steps| && steps[k].Serve? && IsRun(s, steps[..k]) && End(s, steps[..k]).target == Some(n)
    decreases |steps|
  {
    if ChangedNote(n) in Announced(s, steps[0]) {
      k := 0;
      assert steps[..0] == [];
    } else {
      var j := ReadAt(Apply(s, steps[0]), steps[1..], n);
      k := j + 1;
      assert steps[..k][1..] == steps[1..][..j];
      assert steps[1..][j] == steps[k];
    }
  }

  // ---------- each notification answers its own write ----------

  function Deletions(steps: seq<Step>): nat {
    if steps == [] then 0 else (if steps[0].Delete? then 1 else 0) + Deletions(steps[1..])
  }

  function Writes(steps: seq<Step>): nat {
    if steps == [] then 0 else (if steps[0].Create? || steps[0].Set? then 1 else 0) + Writes(steps[1..])
  }

  /** Whether an event leads to a `del`, or to a read. */
  predicate LeadsTo(del: bool, e: Event) {
    if del then e == Deleted else e == Dummy || e == Created || e == Changed
  }

  /** The `del`s, or the reads, that what is under way can still lead to. */
  function Asked(q: seq<Request>, del: bool): nat {
    if q == [] then 0
    else (if (if q[0].AskGet? then !del else LeadsTo(del, q[0].cause)) then 1 else 0) + Asked(q[1..], del)
  }

  predicate Brings(m: Msg, del: bool) {
    match m
    case ExistsReply(_, cause) => LeadsTo(del, cause)
    case Fire(event) => LeadsTo(del, event)
    case GetReply(_) => !del
  }

  function Brought(q: seq<Msg>, del: bool): nat {
    if q == [] then 0 else (if Brings(q[0], del) then 1 else 0) + Brought(q[1..], del)
  }

  function Told(log: seq<Note>, del: bool): nat {
    if log == [] then 0 else (if log[|log| - 1].DelNote? == del then 1 else 0) + Told(log[..|log| - 1], del)
  }

  lemma {:induction false} AskedSnoc(q: seq<Request>, r: Request, del: bool)
    ensures Asked(q + [r], del) == Asked(q, del) + Asked([r], del)
  {
    if q == [] {
      assert q + [r] == [r];
    } else {
      assert (q + [r])[0] == q[0] && (q + [r])[1..] == q[1..] + [r];
      AskedSnoc(q[1..], r, del);
    }
  }

  lemma {:induction false} BroughtSnoc(q: seq<Msg>, m: Msg, del: bool)
    ensures Brought(q + [m], del) == Brought(q, del) + if Brings(m, del) then 1 else 0
  {
    if q == [] {
      assert q + [m] == [m] && [m][1..] == [];
    } else {
      assert (q + [m])[0] == q[0] && (q + [m])[1..] == q[1..] + [m];
      BroughtSnoc(q[1..], m, del);
    }
  }

  lemma ToldSnoc(log: seq<Note>, n: Note, del: bool)
    ensures Told(log + [n], del) == Told(log, del) + if n.DelNote? == del then 1 else 0
  {
    assert (log + [n])[..|log|] == log;
  }

  /** Told, or still to come. */
  function Due(s: State, del: bool): nat {
    Told(s.client.log, del) + Asked(s.requests, del) + Brought(s.inbox, del)
  }

  /** What is sent or told in answer to a message was due with it. */
  lemma DeliverOwes(s: State, del: bool)
    requires ContextOk(s) && s.inbox != []
    ensures Due(Apply(s, Deliver), del) <= Due(s, del)
  {
    var m, out := s.inbox[0], Handle(s.client, s.inbox[0]).1;
    DeliverTells(s);
    ToldMore(s.client.log, Notice(m), del);
    AskedMore(s.requests, out, del);
    if m.ExistsReply? { assert CheckMsgs(s.inbox)[0] == m; }
  }

  lemma ToldMore(log: seq<Note>, notes: seq<Note>, del: bool)
    requires |notes| <= 1
    ensures Told(log + notes, del) == Told(log, del) + if notes != [] && notes[0].DelNote? == del then 1 else 0
  {
    if notes == [] {
      assert log + notes == log;
    } else {
      assert notes == [notes[0]];
      ToldSnoc(log, notes[0], del);
    }
  }

  lemma AskedMore(q: seq<Request>, out: seq<Request>, del: bool)
    requires |out| <= 1
    ensures Asked(q + out, del) == Asked(q, del) + Asked(out, del)
  {
    if out == [] {
      assert q + out == q;
    } else {
      assert out == [out[0]];
      AskedSnoc(q, out[0], del);
    }
  }

  lemma StepOwes(s: State, step: Step, del: bool)
    requires ContextOk(s) && Enabled(s, step)
    ensures Due(Apply(s, step), del) <= Due(s, del) +
              if (if del then step.Delete? else step.Create? || step.Set?) then 1 else 0
  {
    var t := Apply(s, step);
    if step.Deliver? {
      DeliverOwes(s, del);
    } else if t.inbox != s.inbox {
      var m := t.inbox[|s.inbox|];
      assert t.inbox == s.inbox + [m];
      BroughtSnoc(s.inbox, m, del);
    }
  }

  lemma {:induction false} RunOwes(s: State, steps: seq<Step>, del: bool)
    requires ContextOk(s) && IsRun(s, steps)
    ensures Due(End(s, steps), del) <= Due(s, del) + if del then Deletions(steps) else Writes(steps)
    decreases |steps|
  {
    if steps != [] {
      StepKeepsContext(s, steps[0]);
      StepOwes(s, steps[0], del);
      RunOwes(Apply(s, steps[0]), steps[1..], del);
    }
  }

  lemma {:induction false} ToldCounts(log: seq<Note>)
    ensures Told(log, true) == multiset(log)[DelNote] && Told(log, false) == |log| - multiset(log)[DelNote]
  {
    if log != [] {
      ToldCounts(log[..|log| - 1]);
      assert log == log[..|log| - 1] + [log[|log| - 1]];
    }
  }

  /** In every run, at every moment, the user has been told of no more deletions than there were, and
      of no more changes than writes and the first look. */
  lemma NotesAreAnswered(s: State, steps: seq<Step>)
    requires Init(s) && IsRun(s, steps)
    ensures var log := End(s, steps).client.log;
            && multiset(log)[DelNote] <= Deletions(steps)
            && |log| - multiset(log)[DelNote] <= 1 + Writes(steps)
  {
    InitOk(s);
    RunOwes(s, steps, true);
    RunOwes(s, steps, false);
    assert Asked(s.requests[1..], true) == 0 && Asked(s.requests[1..], false) == 0;
    assert Due(s, true) == 0 && Due(s, false) == 1;
    ToldCounts(End(s, steps).client.log);
  }
}
