/**
 * What the local file monitor makes of modification times: a recorded time is that of a missing file
 * only if a poll saw the file come back between its two reads, so that a registration on an existing
 * file is never lost to that; and a file that nobody touches is never reported again.
 */
module LocalFileTimes {
  import opened Seqs
  import opened LocalFile
  import opened LocalFileKeeps
  import opened LocalFilePoll

  // ---------- when the time of a missing file is recorded ----------

  predicate NonZero(g: Gets, path: string) { path in g.lastTime ==> g.lastTime[path] != 0 }

  /** The file is missing at this read of the disk and back at the next. */
  predicate ComesBack(s: State, path: string) { path !in s.disk.files && path in Interleaved(s).disk.files }

  /** One of these checks reads the time of the missing file, finds it changed, and reads its content
      when it is back. */
  predicate SeenComingBack(s: State, order: seq<string>, times: map<string, nat>, monitor: map<string, nat>,
                           path: string)
    requires forall p :: p in order ==> p in times && p in monitor
    decreases |order|
  {
    order != [] &&
    ((order[0] == path && times[path] != 0 && ComesBack(s, path))
     || SeenComingBack(CheckGet(s, order[0], times[order[0]], monitor[order[0]]), order[1..], times, monitor, path))
  }

  predicate PollSeesComingBack(s: State, e: Event, path: string)
    requires CanHappen(s, e)
  {
    e.Poll? &&
    (OrderIs(e.getOrder, s.gets.monitor.Keys);
     SeenComingBack(Compared(s, e.plan, e.existOrder), e.getOrder, s.gets.lastTime, s.gets.monitor, path))
  }

  predicate RunSeesComingBack(s: State, events: seq<Event>, path: string)
    requires IsRun(s, events)
    decreases |events|
  {
    events != [] &&
    (PollSeesComingBack(s, events[0], path) || RunSeesComingBack(Happened(s, events[0]), events[1..], path))
  }

  lemma {:induction false} ActsNonZero(s: State, acts: seq<Act>, path: string)
    requires DiskOk(s.disk) && NonZero(s.gets, path)
    ensures DiskOk(ActedAll(s, acts).disk) && NonZero(ActedAll(s, acts).gets, path)
    decreases |acts|
  {
    if acts != [] { ActsNonZero(Acted(s, acts[0]), acts[1..], path); }
  }

  lemma InterleavedNonZero(s: State, path: string)
    requires DiskOk(s.disk) && NonZero(s.gets, path)
    ensures DiskOk(Interleaved(s).disk) && NonZero(Interleaved(s).gets, path)
  {
    if s.plan != [] { ActsNonZero(s.(plan := s.plan[1..]), s.plan[0], path); }
  }

  lemma {:induction false} RunTasksNonZero(s: State, tasks: seq<Task>, path: string)
    requires DiskOk(s.disk) && NonZero(s.gets, path)
    ensures DiskOk(RunTasks(s, tasks).disk) && NonZero(RunTasks(s, tasks).gets, path)
    decreases |tasks|
  {
    if tasks != [] {
      InterleavedNonZero(s, path);
      RunTasksNonZero(RunTask(Interleaved(s), tasks[0]), tasks[1..], path);
    }
  }

  lemma {:induction false} CheckExistsNonZero(s: State, order: seq<string>, last: map<string, bool>,
                                              monitor: map<string, nat>, path: string)
    requires DiskOk(s.disk) && NonZero(s.gets, path) && forall p :: p in order ==> p in last && p in monitor
    ensures var t := CheckExists(s, order, last, monitor); DiskOk(t.disk) && NonZero(t.gets, path)
    decreases |order|
  {
    if order != [] {
      InterleavedNonZero(s, path);
      CheckExistsNonZero(CheckExist(s, order[0], last[order[0]], monitor[order[0]]), order[1..], last, monitor, path);
    }
  }

  lemma CheckGetNonZero(s: State, p: string, last: nat, c: nat, path: string)
    requires DiskOk(s.disk) && NonZero(s.gets, path) && (p == path && last != 0 ==> !ComesBack(s, path))
    ensures var t := CheckGet(s, p, last, c); DiskOk(t.disk) && NonZero(t.gets, path)
  {
    InterleavedNonZero(s, path);
    InterleavedNonZero(Interleaved(s), path);
  }

  lemma {:induction false} CheckGetsNonZero(s: State, order: seq<string>, times: map<string, nat>,
                                            monitor: map<string, nat>, path: string)
    requires DiskOk(s.disk) && NonZero(s.gets, path) && forall p :: p in order ==> p in times && p in monitor
    requires !SeenComingBack(s, order, times, monitor, path)
    ensures NonZero(CheckGets(s, order, times, monitor).gets, path)
    ensures DiskOk(CheckGets(s, order, times, monitor).disk)
    decreases |order|
  {
    if order != [] {
      CheckGetNonZero(s, order[0], times[order[0]], monitor[order[0]], path);
      CheckGetsNonZero(CheckGet(s, order[0], times[order[0]], monitor[order[0]]), order[1..], times, monitor, path);
    }
  }

  lemma HappenedNonZero(s: State, e: Event, path: string)
    requires DiskOk(s.disk) && NonZero(s.gets, path) && CanHappen(s, e) && !PollSeesComingBack(s, e, path)
    ensures DiskOk(Happened(s, e).disk) && NonZero(Happened(s, e).gets, path)
  {
    match e
    case Others(acts) => ActsNonZero(s, acts, path);
    case Poll(plan, existOrder, getOrder) =>
      OrderIs(existOrder, s.exist.monitor.Keys);
      OrderIs(getOrder, s.gets.monitor.Keys);
      RunTasksNonZero(s.(plan := plan, queue := []), s.queue, path);
      CheckExistsNonZero(Dealt(s, plan), existOrder, s.exist.lastStatus, s.exist.monitor, path);
      CheckGetsNonZero(Compared(s, plan, existOrder), getOrder, s.gets.lastTime, s.gets.monitor, path);
  }

  lemma {:induction false} RunNonZero(s: State, events: seq<Event>, path: string)
    requires DiskOk(s.disk) && NonZero(s.gets, path) && IsRun(s, events) && !RunSeesComingBack(s, events, path)
    ensures DiskOk(End(s, events).disk) && NonZero(End(s, events).gets, path)
    decreases |events|
  {
    if events != [] {
      HappenedNonZero(s, events[0], path);
      RunNonZero(Happened(s, events[0]), events[1..], path);
    }
  }

  /** In every run a recorded time is 0 only if some poll read the file's time while it was missing and
      its content when it was back. */
  lemma ZeroMeansSeenComingBack(disk: Disk, events: seq<Event>, path: string)
    requires DiskOk(disk) && IsRun(Start(disk), events)
    requires path in End(Start(disk), events).gets.lastTime && End(Start(disk), events).gets.lastTime[path] == 0
    ensures RunSeesComingBack(Start(disk), events, path)
  {
    if !RunSeesComingBack(Start(disk), events, path) { RunNonZero(Start(disk), events, path); }
  }

  // ---------- polls without interleaved writes see no file come back ----------

  lemma {:induction false} QuietSeesNone(s: State, order: seq<string>, times: map<string, nat>,
                                         monitor: map<string, nat>, path: string)
    requires Quiet(s.plan) && forall p :: p in order ==> p in times && p in monitor
    ensures !SeenComingBack(s, order, times, monitor, path)
    decreases |order|
  {
    if order != [] {
      InterleavedQuiet(s);
      InterleavedQuiet(Interleaved(s));
      QuietSeesNone(CheckGet(s, order[0], times[order[0]], monitor[order[0]]), order[1..], times, monitor, path);
    }
  }

  /** No write is interleaved within any poll of the run. */
  predicate QuietPolls(events: seq<Event>) { forall e :: e in events && e.Poll? ==> Quiet(e.plan) }

  lemma {:induction false} QuietRunSeesNone(s: State, events: seq<Event>, path: string)
    requires IsRun(s, events) && QuietPolls(events)
    ensures !RunSeesComingBack(s, events, path)
    decreases |events|
  {
    if events != [] {
      var e := events[0];
      assert e in events && forall f :: f in events[1..] ==> f in events;
      if e.Poll? {
        OrderIs(e.existOrder, s.exist.monitor.Keys);
        OrderIs(e.getOrder, s.gets.monitor.Keys);
        RunTasksQuiet(s.(plan := e.plan, queue := []), s.queue);
        CheckExistsQuiet(Dealt(s, e.plan), e.existOrder, s.exist.lastStatus, s.exist.monitor);
        QuietSeesNone(Compared(s, e.plan, e.existOrder), e.getOrder, s.gets.lastTime, s.gets.monitor, path);
      }
      QuietRunSeesNone(Happened(s, e), events[1..], path);
    }
  }

  // ---------- registrations are not lost ----------

  /** A callback registered on an existing file at a free path: unless some poll saw the file come back
      between its two reads, every later poll without interleaved writes leaves it knowing its file,
      or having been told that the file was gone. */
  lemma RegistrationInformed(s: State, path: string, events: seq<Event>, plan: seq<seq<Act>>,
                             existOrder: seq<string>, getOrder: seq<string>)
    requires Ok(s, []) && path in s.disk.files && path !in s.gets.monitor
    requires IsRun(Acted(s, WatchValue(path)), events)
    requires !RunSeesComingBack(Acted(s, WatchValue(path)), events, path)
    requires Quiet(plan) && CanHappen(End(Acted(s, WatchValue(path)), events), Poll(plan, existOrder, getOrder))
    ensures var c, u := s.next, End(Acted(s, WatchValue(path)), events);
            var t := Polled(u, plan, existOrder, getOrder);
            && c in t.gets.book && t.gets.book[c].path == path && t.disk == u.disk
            && (Knows(t, c) || ToldGone(u.gets, c))
  {
    var s1, c := Acted(s, WatchValue(path)), s.next;
    var u := End(s1, events);
    OkBooks(s, []);
    ActKeeps(s, WatchValue(path), []);
    OkBooks(s1, []);
    RunLater(s1, events);
    RunKeeps(s1, events);
    WatchedExactlyWhenFree(s, path, events);
    RunNonZero(s1, events, path);
    QuietPollInforms(u, plan, existOrder, getOrder, c);
  }

  /** So without writes interleaved within polls, no registration on an existing file is ever lost. */
  lemma QuietRegistrationInformed(s: State, path: string, events: seq<Event>, plan: seq<seq<Act>>,
                                  existOrder: seq<string>, getOrder: seq<string>)
    requires Ok(s, []) && path in s.disk.files && path !in s.gets.monitor
    requires IsRun(Acted(s, WatchValue(path)), events) && QuietPolls(events)
    requires Quiet(plan) && CanHappen(End(Acted(s, WatchValue(path)), events), Poll(plan, existOrder, getOrder))
    ensures var c, u := s.next, End(Acted(s, WatchValue(path)), events);
            var t := Polled(u, plan, existOrder, getOrder);
            && c in t.gets.book && t.gets.book[c].path == path && t.disk == u.disk
            && (Knows(t, c) || ToldGone(u.gets, c))
  {
    QuietRunSeesNone(Acted(s, WatchValue(path)), events, path);
    RegistrationInformed(s, path, events, plan, existOrder, getOrder);
  }
}
