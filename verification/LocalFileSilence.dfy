/**
 * The local file monitor calls nobody without reason: once a content callback has been told of a file,
 * it is not called again, in any run, while nobody touches the file.
 */
module LocalFileSilence {
  import opened Seqs
  import opened LocalFile
  import opened LocalFileKeeps
  import opened LocalFilePoll

  // ---------- runs that leave a file alone ----------

  predicate LeavesOne(act: Act, path: string, file: File) {
    act.Write? ==> path in act.after.files && act.after.files[path] == file
  }

  predicate Leaves(acts: seq<Act>, path: string, file: File) { forall a :: a in acts ==> LeavesOne(a, path, file) }

  predicate PlanLeaves(plan: seq<seq<Act>>, path: string, file: File) {
    forall acts :: acts in plan ==> Leaves(acts, path, file)
  }

  /** Nobody touches the file during the run. */
  predicate RunLeaves(events: seq<Event>, path: string, file: File) {
    forall e :: e in events ==>
      match e case Others(acts) => Leaves(acts, path, file) case Poll(plan, _, _) => PlanLeaves(plan, path, file)
  }

  // ---------- the invariant ----------

  /** The path is watched for the callback and its file has the recorded time. */
  predicate OnRecord(d: Disk, g: Gets, path: string, file: File, c: nat) {
    && path in d.files && d.files[path] == file && path in g.monitor && g.monitor[path] == c
    && path in g.lastTime && g.lastTime[path] == file.mtime
  }

  predicate Steady(s: State, path: string, file: File, c: nat) {
    OnRecord(s.disk, s.gets, path, file, c) && PlanLeaves(s.plan, path, file) && c < s.next
  }

  function Tasks(queue: seq<Task>, c: nat): nat {
    if queue == [] then 0 else (if queue[0].GetTask? && queue[0].callback == c then 1 else 0) + Tasks(queue[1..], c)
  }

  lemma {:induction false} TasksAppend(p: seq<Task>, q: seq<Task>, c: nat)
    ensures Tasks(p + q, c) == Tasks(p, c) + Tasks(q, c)
  {
    if p == [] {
      assert p + q == q;
    } else {
      assert (p + q)[0] == p[0] && (p + q)[1..] == p[1..] + q;
      TasksAppend(p[1..], q, c);
    }
  }

  /** The calls made and still to be made for what has been registered. */
  function Owed(s: State, running: seq<Task>, c: nat): nat { Calls(s.gets, c) + Tasks(running, c) + Tasks(s.queue, c) }

  // ---------- acts of others ----------

  lemma ActSteady(s: State, act: Act, path: string, file: File, c: nat, running: seq<Task>)
    requires Ok(s, running) && Steady(s, path, file, c) && LeavesOne(act, path, file)
    ensures var t := Acted(s, act); Steady(t, path, file, c) && Owed(t, running, c) == Owed(s, running, c)
  {
    match act
    case Write(_) =>
    case WatchStatus(p) => TasksAppend(s.queue, [ExistTask(s.next, p in s.disk.files)], c);
    case WatchValue(p) => WatchSteady(s, p, path, file, c, running);
  }

  lemma WatchSteady(s: State, p: string, path: string, file: File, c: nat, running: seq<Task>)
    requires Steady(s, path, file, c)
    ensures var t := Acted(s, WatchValue(p)); Steady(t, path, file, c) && Owed(t, running, c) == Owed(s, running, c)
  {
    TasksAppend(s.queue, [GetTask(s.next, Content(s.disk, p))], c);
  }

  lemma {:induction false} ActsSteady(s: State, acts: seq<Act>, path: string, file: File, c: nat, running: seq<Task>)
    requires Ok(s, running) && Steady(s, path, file, c) && Leaves(acts, path, file)
    ensures var t := ActedAll(s, acts); Steady(t, path, file, c) && Owed(t, running, c) == Owed(s, running, c)
    decreases |acts|
  {
    if acts != [] {
      assert acts[0] in acts && forall a :: a in acts[1..] ==> a in acts;
      ActKeeps(s, acts[0], running);
      ActSteady(s, acts[0], path, file, c, running);
      ActsSteady(Acted(s, acts[0]), acts[1..], path, file, c, running);
    }
  }

  lemma InterleavedSteady(s: State, path: string, file: File, c: nat, running: seq<Task>)
    requires Ok(s, running) && Steady(s, path, file, c)
    ensures var t := Interleaved(s);
            Ok(t, running) && Steady(t, path, file, c) && Owed(t, running, c) == Owed(s, running, c)
  {
    InterleavedKeeps(s, running);
    if s.plan != [] {
      assert s.plan[0] in s.plan && forall acts :: acts in s.plan[1..] ==> acts in s.plan;
      ActsSteady(s.(plan := s.plan[1..]), s.plan[0], path, file, c, running);
    }
  }

  // ---------- a round ----------

  lemma RunTaskSteady(s: State, tasks: seq<Task>, path: string, file: File, c: nat)
    requires tasks != [] && Steady(s, path, file, c)
    ensures var t := RunTask(s, tasks[0]); Steady(t, path, file, c) && Owed(t, tasks[1..], c) == Owed(s, tasks, c)
  {}

  lemma {:induction false} RunTasksSteady(s: State, tasks: seq<Task>, path: string, file: File, c: nat)
    requires Ok(s, tasks) && Steady(s, path, file, c)
    ensures var t := RunTasks(s, tasks); Steady(t, path, file, c) && Owed(t, [], c) == Owed(s, tasks, c)
    decreases |tasks|
  {
    if tasks != [] {
      var t := Interleaved(s);
      InterleavedSteady(s, path, file, c, tasks);
      RunTaskKeeps(t, tasks);
      RunTaskSteady(t, tasks, path, file, c);
      RunTasksSteady(RunTask(t, tasks[0]), tasks[1..], path, file, c);
    }
  }

  lemma CheckExistSteady(s: State, p: string, last: bool, callback: nat, path: string, file: File, c: nat)
    requires Ok(s, []) && Steady(s, path, file, c)
    ensures var t := CheckExist(s, p, last, callback);
            Steady(t, path, file, c) && Owed(t, [], c) == Owed(s, [], c)
  {
    InterleavedSteady(s, path, file, c, []);
  }

  lemma {:induction false} CheckExistsSteady(s: State, order: seq<string>, last: map<string, bool>,
                                             monitor: map<string, nat>, limit: nat, path: string, file: File, c: nat)
    requires Checking(s, limit) && Distinct(order) && ExistWaiting(s.exist, order, last, monitor, limit)
    requires Steady(s, path, file, c)
    ensures var t := CheckExists(s, order, last, monitor); Steady(t, path, file, c) && Owed(t, [], c) == Owed(s, [], c)
    decreases |order|
  {
    if order != [] {
      var p := order[0];
      var t := CheckExist(s, p, last[p], monitor[p]);
      CheckExistSteady(s, p, last[p], monitor[p], path, file, c);
      CheckExistKeeps(s, p, last[p], monitor[p], limit);
      CheckExistOthers(s, p, last[p], monitor[p], limit);
      ExistStillWaiting(s.exist, t.exist, order, last, monitor, limit);
      CheckExistsSteady(t, order[1..], last, monitor, limit, path, file, c);
    }
  }

  /** A check of the file itself finds its time unchanged, a check of another calls somebody else. */
  lemma CheckGetSteady(s: State, p: string, last: nat, callback: nat, path: string, file: File, c: nat)
    requires Ok(s, []) && p in s.gets.monitor && s.gets.monitor[p] == callback && p in s.gets.lastTime
    requires s.gets.lastTime[p] == last && Steady(s, path, file, c)
    ensures var t := CheckGet(s, p, last, callback);
            Steady(t, path, file, c) && Owed(t, [], c) == Owed(s, [], c)
  {
    InterleavedSteady(s, path, file, c, []);
    if p == path {
      assert last == ModifyTime(s.disk, p);
    } else {
      SomebodyElse(s, p, path);
      RereadSteady(Interleaved(s), p, callback, ModifyTime(s.disk, p), path, file, c);
    }
  }

  lemma SomebodyElse(s: State, p: string, path: string)
    requires Ok(s, []) && p in s.gets.monitor && path in s.gets.monitor && p != path
    ensures s.gets.monitor[p] != s.gets.monitor[path]
  {
    OkBooks(s, []);
  }

  lemma RereadSteady(s: State, p: string, callback: nat, time: nat, path: string, file: File, c: nat)
    requires Ok(s, []) && Steady(s, path, file, c) && p != path && callback != c
    ensures var t := Reread(s, p, callback, time); Steady(t, path, file, c) && Owed(t, [], c) == Owed(s, [], c)
  {
    InterleavedSteady(s, path, file, c, []);
  }

  lemma {:induction false} CheckGetsSteady(s: State, order: seq<string>, times: map<string, nat>,
                                           monitor: map<string, nat>, limit: nat, path: string, file: File, c: nat)
    requires Checking(s, limit) && Distinct(order) && GetWaiting(s.gets, order, times, monitor, limit)
    requires Steady(s, path, file, c)
    ensures var t := CheckGets(s, order, times, monitor); Steady(t, path, file, c) && Owed(t, [], c) == Owed(s, [], c)
    decreases |order|
  {
    if order != [] {
      var p := order[0];
      var t := CheckGet(s, p, times[p], monitor[p]);
      CheckGetSteady(s, p, times[p], monitor[p], path, file, c);
      CheckGetKeeps(s, p, times[p], monitor[p], limit);
      CheckGetOthers(s, p, times[p], monitor[p], limit);
      GetStillWaiting(s.gets, t.gets, order, times, monitor, limit);
      CheckGetsSteady(t, order[1..], times, monitor, limit, path, file, c);
    }
  }

  lemma DealtSteady(s: State, plan: seq<seq<Act>>, path: string, file: File, c: nat)
    requires Ok(s, []) && PlanLeaves(plan, path, file) && OnRecord(s.disk, s.gets, path, file, c) && c < s.next
    ensures var t := Dealt(s, plan); Steady(t, path, file, c) && Owed(t, [], c) == Owed(s, [], c)
  {
    var s0 := s.(plan := plan, queue := []);
    assert [] + s.queue == s.queue == s.queue + [];
    RunTasksSteady(s0, s.queue, path, file, c);
  }

  lemma ComparedSteady(s: State, plan: seq<seq<Act>>, existOrder: seq<string>, getOrder: seq<string>, path: string,
                       file: File, c: nat)
    requires Ok(s, []) && CanHappen(s, Poll(plan, existOrder, getOrder)) && PlanLeaves(plan, path, file)
    requires OnRecord(s.disk, s.gets, path, file, c) && c < s.next
    ensures var t := Compared(s, plan, existOrder); Steady(t, path, file, c) && Owed(t, [], c) == Owed(s, [], c)
  {
    DealtSteady(s, plan, path, file, c);
    DealtIsChecking(s, plan);
    SnapshotWaits(s, plan, existOrder, getOrder);
    CheckExistsSteady(Dealt(s, plan), existOrder, s.exist.lastStatus, s.exist.monitor, s.next, path, file, c);
  }

  lemma PolledSteady(s: State, plan: seq<seq<Act>>, existOrder: seq<string>, getOrder: seq<string>, path: string,
                     file: File, c: nat)
    requires Ok(s, []) && CanHappen(s, Poll(plan, existOrder, getOrder)) && PlanLeaves(plan, path, file)
    requires OnRecord(s.disk, s.gets, path, file, c) && c < s.next
    ensures var t := Polled(s, plan, existOrder, getOrder); Steady(t, path, file, c) && Owed(t, [], c) == Owed(s, [], c)
  {
    ComparedSteady(s, plan, existOrder, getOrder, path, file, c);
    ComparedIsChecking(s, plan, existOrder, getOrder);
    OrderIs(getOrder, s.gets.monitor.Keys);
    CheckGetsSteady(Compared(s, plan, existOrder), getOrder, s.gets.lastTime, s.gets.monitor, s.next, path, file, c);
  }

  // ---------- runs ----------

  /** While nobody touches the file, the callback its path is watched for is called for the task it has
      queued, if any, and never again. */
  lemma {:induction false} SilentWhileUntouched(s: State, path: string, file: File, c: nat, events: seq<Event>)
    requires Ok(s, []) && IsRun(s, events) && RunLeaves(events, path, file)
    requires OnRecord(s.disk, s.gets, path, file, c) && c < s.next
    ensures var t := End(s, events);
            OnRecord(t.disk, t.gets, path, file, c) && Owed(t, [], c) == Owed(s, [], c)
    decreases |events|
  {
    if events != [] {
      var e := events[0];
      assert e in events && forall f :: f in events[1..] ==> f in events;
      match e {
        case Others(acts) =>
          OthersSteady(s, acts, path, file, c);
          ActsKeep(s, acts, []);
        case Poll(plan, existOrder, getOrder) =>
          PolledSteady(s, plan, existOrder, getOrder, path, file, c);
          PolledKeeps(s, plan, existOrder, getOrder);
      }
      SilentWhileUntouched(Happened(s, e), path, file, c, events[1..]);
    }
  }

  lemma OthersSteady(s: State, acts: seq<Act>, path: string, file: File, c: nat)
    requires Ok(s, []) && Leaves(acts, path, file) && OnRecord(s.disk, s.gets, path, file, c) && c < s.next
    ensures var t := ActedAll(s, acts);
            OnRecord(t.disk, t.gets, path, file, c) && c < t.next && Owed(t, [], c) == Owed(s, [], c)
  {
    ActsSteady(s.(plan := []), acts, path, file, c, []);
    PlanAside(s, acts, []);
  }

  /** A plan left over from an earlier poll plays no part. */
  lemma {:induction false} PlanAside(s: State, acts: seq<Act>, plan: seq<seq<Act>>)
    ensures ActedAll(s.(plan := plan), acts) == ActedAll(s, acts).(plan := plan)
    decreases |acts|
  {
    if acts != [] { PlanAside(Acted(s, acts[0]), acts[1..], plan); }
  }

  /** A callback registered on an existing file at a free path is told its content once and, while
      nobody touches the file, nothing else. */
  lemma RegisteredToldOnce(s: State, path: string, events: seq<Event>)
    requires Ok(s, []) && path in s.disk.files && path !in s.gets.monitor
    requires IsRun(Acted(s, WatchValue(path)), events) && RunLeaves(events, path, s.disk.files[path])
    ensures Calls(End(Acted(s, WatchValue(path)), events).gets, s.next) <= 1
  {
    var s1, c, file := Acted(s, WatchValue(path)), s.next, s.disk.files[path];
    OkBooks(s, []);
    ActKeeps(s, WatchValue(path), []);
    TasksAppend(s.queue, [GetTask(c, Content(s.disk, path))], c);
    NoTasksYet(s.queue, c);
    assert [GetTask(c, Content(s.disk, path))][1..] == [];
    assert [] + s.queue == s.queue;
    assert Calls(s.gets, c) == 0;
    SilentWhileUntouched(s1, path, file, c, events);
  }

  lemma {:induction false} NoTasksYet(queue: seq<Task>, c: nat)
    requires forall t :: t in queue ==> t.callback != c || !t.GetTask?
    ensures Tasks(queue, c) == 0
  {
    if queue != [] {
      assert queue[0] in queue;
      NoTasksYet(queue[1..], c);
    }
  }

  // ---------- a poll without interleaved writes brings the record up to date ----------

  /** An existing file is watched with its own time on record. */
  predicate UpToDate(d: Disk, g: Gets, p: string) {
    p in d.files ==> p in g.monitor && p in g.lastTime && g.lastTime[p] == d.files[p].mtime
  }

  lemma CheckGetRecords(s: State, p: string, last: nat, c: nat, limit: nat)
    requires Checking(s, limit) && Quiet(s.plan)
    requires p in s.gets.monitor && s.gets.monitor[p] == c < limit && s.gets.lastTime[p] == last
    ensures var t := CheckGet(s, p, last, c); t.disk == s.disk && Quiet(t.plan) && UpToDate(s.disk, t.gets, p)
  {
    InterleavedChecking(s, limit);
    InterleavedQuiet(s);
    if last != ModifyTime(s.disk, p) { RereadRecords(Interleaved(s), p, c, limit); }
  }

  lemma RereadRecords(s: State, p: string, c: nat, limit: nat)
    requires Checking(s, limit) && Quiet(s.plan) && p in s.gets.monitor
    ensures var t := Reread(s, p, c, ModifyTime(s.disk, p));
            t.disk == s.disk && Quiet(t.plan) && UpToDate(s.disk, t.gets, p)
  {
    InterleavedChecking(s, limit);
    InterleavedQuiet(s);
  }

  lemma {:induction false} CheckGetsRecord(s: State, order: seq<string>, times: map<string, nat>,
                                           monitor: map<string, nat>, limit: nat)
    requires Checking(s, limit) && Quiet(s.plan) && Distinct(order)
    requires GetWaiting(s.gets, order, times, monitor, limit)
    ensures var t := CheckGets(s, order, times, monitor);
            && (forall p :: p in order ==> UpToDate(s.disk, t.gets, p))
            && (forall p :: p in s.gets.monitor && p !in order ==>
                  p in t.gets.monitor && p in t.gets.lastTime && t.gets.lastTime[p] == s.gets.lastTime[p])
    decreases |order|
  {
    if order != [] {
      var p := order[0];
      var u := CheckGet(s, p, times[p], monitor[p]);
      CheckGetRecords(s, p, times[p], monitor[p], limit);
      CheckGetKeeps(s, p, times[p], monitor[p], limit);
      CheckGetOthers(s, p, times[p], monitor[p], limit);
      GetStillWaiting(s.gets, u.gets, order, times, monitor, limit);
      CheckGetsRecord(u, order[1..], times, monitor, limit);
      assert forall q :: q in order <==> q == p || q in order[1..];
    }
  }

  lemma QuietPollRecords(s: State, plan: seq<seq<Act>>, existOrder: seq<string>, getOrder: seq<string>)
    requires Ok(s, []) && CanHappen(s, Poll(plan, existOrder, getOrder)) && Quiet(plan)
    ensures forall p :: p in s.gets.monitor ==> UpToDate(s.disk, Polled(s, plan, existOrder, getOrder).gets, p)
  {
    OrderIs(getOrder, s.gets.monitor.Keys);
    QuietStatuses(s, plan, existOrder, getOrder);
    ComparedIsChecking(s, plan, existOrder, getOrder);
    CheckGetsRecord(Compared(s, plan, existOrder), getOrder, s.gets.lastTime, s.gets.monitor, s.next);
  }

  /** The callback's file is told, watched and on record, and no task of the callback is left. */
  lemma AfterQuietPoll(s: State, plan: seq<seq<Act>>, existOrder: seq<string>, getOrder: seq<string>, c: nat)
    requires Ok(s, []) && CanHappen(s, Poll(plan, existOrder, getOrder)) && Quiet(plan)
    requires c in s.gets.book && WatchesValue(s.gets, c) && s.gets.book[c].path in s.disk.files
    ensures var path, t := s.gets.book[c].path, Polled(s, plan, existOrder, getOrder);
            && Ok(t, []) && t.disk == s.disk && c < t.next && Tasks(t.queue, c) == 0
            && OnRecord(t.disk, t.gets, path, s.disk.files[path], c)
  {
    var path, t := s.gets.book[c].path, Polled(s, plan, existOrder, getOrder);
    QuietPollInforms(s, plan, existOrder, getOrder, c);
    QuietPollRecords(s, plan, existOrder, getOrder);
    RoundKeepsBook(s, plan, existOrder, getOrder);
    PolledKeeps(s, plan, existOrder, getOrder);
    StillWatches(s, t, c);
  }

  /** A watching callback that knows its existing file goes on watching and has no task left. */
  lemma StillWatches(s: State, t: State, c: nat)
    requires Ok(s, []) && Ok(t, []) && c in s.gets.book && WatchesValue(s.gets, c) && c in t.gets.book
    requires t.gets.book[c] == s.gets.book[c] && c in t.gets.delivered && !ToldGone(t.gets, c)
    ensures WatchesValue(t.gets, c) && Tasks(t.queue, c) == 0
  {
    assert [] + s.queue == s.queue && [] + t.queue == t.queue;
    assert GetRegOk(s.gets, s.queue, c) && GetRegOk(t.gets, t.queue, c);
    NoTasksYet(t.queue, c);
  }

  /** Once a poll without interleaved writes has told a watching callback of its file, the callback is
      called again in no run that leaves the file alone. */
  lemma SilentOnceTold(s: State, plan: seq<seq<Act>>, existOrder: seq<string>, getOrder: seq<string>, c: nat,
                       events: seq<Event>)
    requires Ok(s, []) && CanHappen(s, Poll(plan, existOrder, getOrder)) && Quiet(plan)
    requires c in s.gets.book && WatchesValue(s.gets, c) && s.gets.book[c].path in s.disk.files
    requires IsRun(Polled(s, plan, existOrder, getOrder), events)
    requires RunLeaves(events, s.gets.book[c].path, s.disk.files[s.gets.book[c].path])
    ensures var t := Polled(s, plan, existOrder, getOrder); Calls(End(t, events).gets, c) <= Calls(t.gets, c)
  {
    var path, t := s.gets.book[c].path, Polled(s, plan, existOrder, getOrder);
    AfterQuietPoll(s, plan, existOrder, getOrder, c);
    SilentFrom(t, path, s.disk.files[path], c, events);
  }

  lemma SilentFrom(t: State, path: string, file: File, c: nat, events: seq<Event>)
    requires Ok(t, []) && IsRun(t, events) && RunLeaves(events, path, file)
    requires OnRecord(t.disk, t.gets, path, file, c) && c < t.next && Tasks(t.queue, c) == 0
    ensures Calls(End(t, events).gets, c) <= Calls(t.gets, c)
  {
    SilentWhileUntouched(t, path, file, c, events);
  }
}
