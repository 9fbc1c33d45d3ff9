/**
 * What the users of the local file monitor know: who is watched for, what every callback is told
 * over a whole run, and exactly when a poll without interleaved writes brings a callback up to date.
 */
module LocalFilePoll {
  import opened Seqs
  import opened LocalFile
  import opened LocalFileKeeps

  // ---------- registrations are for good ----------

  /** What was registered stays registered. */
  predicate Later(s: State, t: State) {
    && s.next <= t.next
    && (forall c :: c in s.exist.book ==> c in t.exist.book && t.exist.book[c] == s.exist.book[c])
    && (forall c :: c in s.gets.book ==> c in t.gets.book && t.gets.book[c] == s.gets.book[c])
  }

  predicate Numbered(s: State) {
    (forall c :: c in s.exist.book ==> c < s.next) && forall c :: c in s.gets.book ==> c < s.next
  }

  lemma {:induction false} ActsLater(s: State, acts: seq<Act>)
    requires Numbered(s)
    ensures Later(s, ActedAll(s, acts)) && Numbered(ActedAll(s, acts))
    decreases |acts|
  {
    if acts != [] { ActsLater(Acted(s, acts[0]), acts[1..]); }
  }

  lemma InterleavedLater(s: State)
    requires Numbered(s)
    ensures Later(s, Interleaved(s)) && Numbered(Interleaved(s))
  {
    if s.plan != [] { ActsLater(s.(plan := s.plan[1..]), s.plan[0]); }
  }

  lemma {:induction false} RunTasksLater(s: State, tasks: seq<Task>)
    requires Numbered(s)
    ensures Later(s, RunTasks(s, tasks)) && Numbered(RunTasks(s, tasks))
    decreases |tasks|
  {
    if tasks != [] {
      InterleavedLater(s);
      RunTasksLater(RunTask(Interleaved(s), tasks[0]), tasks[1..]);
    }
  }

  lemma {:induction false} CheckExistsLater(s: State, order: seq<string>, last: map<string, bool>,
                                            monitor: map<string, nat>)
    requires Numbered(s) && forall p :: p in order ==> p in last && p in monitor
    ensures Later(s, CheckExists(s, order, last, monitor)) && Numbered(CheckExists(s, order, last, monitor))
    decreases |order|
  {
    if order != [] {
      InterleavedLater(s);
      CheckExistsLater(CheckExist(s, order[0], last[order[0]], monitor[order[0]]), order[1..], last, monitor);
    }
  }

  lemma {:induction false} CheckGetsLater(s: State, order: seq<string>, times: map<string, nat>,
                                          monitor: map<string, nat>)
    requires Numbered(s) && forall p :: p in order ==> p in times && p in monitor
    ensures Later(s, CheckGets(s, order, times, monitor)) && Numbered(CheckGets(s, order, times, monitor))
    decreases |order|
  {
    if order != [] {
      InterleavedLater(s);
      InterleavedLater(Interleaved(s));
      CheckGetsLater(CheckGet(s, order[0], times[order[0]], monitor[order[0]]), order[1..], times, monitor);
    }
  }

  lemma HappenedLater(s: State, e: Event)
    requires Numbered(s) && CanHappen(s, e)
    ensures Later(s, Happened(s, e)) && Numbered(Happened(s, e))
  {
    match e
    case Others(acts) => ActsLater(s, acts);
    case Poll(plan, existOrder, getOrder) =>
      RunTasksLater(s.(plan := plan, queue := []), s.queue);
      OrderIs(existOrder, s.exist.monitor.Keys);
      OrderIs(getOrder, s.gets.monitor.Keys);
      CheckExistsLater(Dealt(s, plan), existOrder, s.exist.lastStatus, s.exist.monitor);
      CheckGetsLater(Compared(s, plan, existOrder), getOrder, s.gets.lastTime, s.gets.monitor);
  }

  lemma {:induction false} RunLater(s: State, events: seq<Event>)
    requires Numbered(s) && IsRun(s, events)
    ensures Later(s, End(s, events))
    decreases |events|
  {
    if events != [] {
      HappenedLater(s, events[0]);
      RunLater(Happened(s, events[0]), events[1..]);
    }
  }

  // ---------- inside a callback ----------

  /** Others do not change what has been delivered. */
  lemma {:induction false} ActsLeaveDelivered(s: State, acts: seq<Act>, delivered: map<nat, Delivered>,
                                              calls: map<nat, nat>)
    ensures var t := ActedAll(s, acts);
            ActedAll(s.(gets := s.gets.(delivered := delivered, calls := calls)), acts)
            == t.(gets := t.gets.(delivered := delivered, calls := calls))
    decreases |acts|
  {
    if acts != [] { ActsLeaveDelivered(Acted(s, acts[0]), acts[1..], delivered, calls); }
  }

  /** What others do between a content callback and the update of its record, registrations from
      inside the callback among them, might as well have happened before both. */
  lemma InsideCallback(s: State, acts: seq<Act>, path: string, c: nat, time: nat, v: Delivered)
    ensures var t := ActedAll(s.(gets := Deliver(s.gets, c, v)), acts);
            var u := ActedAll(s, acts);
            if v == Gone then
              t.(gets := t.gets.(lastTime := t.gets.lastTime - {path}, monitor := t.gets.monitor - {path}))
              == u.(gets := Forget(u.gets, path, c))
            else
              t.(gets := t.gets.(lastTime := t.gets.lastTime[path := time]))
              == u.(gets := Report(u.gets, path, c, time, v))
  {
    var told := Deliver(s.gets, c, v);
    ActsLeaveDelivered(s, acts, told.delivered, told.calls);
    ActsLeaveDelivered(s, acts, s.gets.delivered, s.gets.calls);
    assert s.(gets := s.gets.(delivered := s.gets.delivered, calls := s.gets.calls)) == s;
    assert s.(gets := s.gets.(delivered := told.delivered, calls := told.calls)) == s.(gets := told);
  }

  // ---------- what a callback is told over a whole run ----------

  /** A content callback goes on to be watched for, until it is told that the file is gone, if and
      only if the file existed and the path had no watch when it was registered. Otherwise it is
      told what it was registered with and nothing else, ever. */
  lemma WatchedExactlyWhenFree(s: State, path: string, events: seq<Event>)
    requires Ok(s, []) && IsRun(Acted(s, WatchValue(path)), events)
    ensures var c, g := s.next, End(Acted(s, WatchValue(path)), events).gets;
            && (WatchesValue(g, c) <==> path in s.disk.files && path !in s.gets.monitor && !ToldGone(g, c))
            && (!(path in s.disk.files && path !in s.gets.monitor) && c in g.delivered ==>
                  g.delivered[c] == Content(s.disk, path))
  {
    var s1, c := Acted(s, WatchValue(path)), s.next;
    OkBooks(s, []);
    ActKeeps(s, WatchValue(path), []);
    OkBooks(s1, []);
    RunLater(s1, events);
    RunKeeps(s1, events);
    var t := End(s1, events);
    assert t.gets.book[c] == GetReg(path, Content(s.disk, path), path !in s.gets.monitor);
    assert GetRegOk(t.gets, [] + t.queue, c);
  }

  /** The same for a registration at any point of a run, also in the middle of a poll. */
  lemma EveryRegistration(disk: Disk, events: seq<Event>, c: nat)
    requires DiskOk(disk) && IsRun(Start(disk), events) && c in End(Start(disk), events).gets.book
    ensures var g := End(Start(disk), events).gets;
            var r := g.book[c];
            && (WatchesValue(g, c) <==> r.value.Value? && r.free && !ToldGone(g, c))
            && (c in g.delivered && !(r.value.Value? && r.free) ==> g.delivered[c] == r.value)
  {
    StartOk(disk);
    RunKeeps(Start(disk), events);
    var t := End(Start(disk), events);
    assert GetRegOk(t.gets, [] + t.queue, c);
  }

  /** An existence callback is told its registered status and then, if and only if the path had no
      watch, created and deleted in turn. */
  lemma StatusesAlternate(s: State, path: string, events: seq<Event>)
    requires Ok(s, []) && IsRun(Acted(s, WatchStatus(path)), events)
    ensures var c, x := s.next, End(Acted(s, WatchStatus(path)), events).exist;
            && (WatchesStatus(x, c) <==> path !in s.exist.monitor)
            && (c in x.told ==> Alternate(x.told[c], path in s.disk.files))
            && (c in x.told && path in s.exist.monitor ==> x.told[c] == [path in s.disk.files])
  {
    var s1, c := Acted(s, WatchStatus(path)), s.next;
    OkBooks(s, []);
    ActKeeps(s, WatchStatus(path), []);
    OkBooks(s1, []);
    RunLater(s1, events);
    RunKeeps(s1, events);
    var t := End(s1, events);
    assert t.exist.book[c] == ExistReg(path, path in s.disk.files, path !in s.exist.monitor);
    ExistRegMeans(t, c);
  }

  lemma ExistRegMeans(t: State, c: nat)
    requires Ok(t, []) && c in t.exist.book
    ensures var x, r := t.exist, t.exist.book[c];
            && (WatchesStatus(x, c) <==> r.free) && (c in x.told ==> Alternate(x.told[c], r.existed))
            && (c in x.told && !r.free ==> x.told[c] == [r.existed])
  {
    assert ExistRegOk(t.exist, [] + t.queue, c);
  }

  // ---------- a poll without interleaved writes ----------

  predicate Silent(acts: seq<Act>) { forall a :: a in acts ==> !a.Write? }

  predicate Quiet(plan: seq<seq<Act>>) { forall acts :: acts in plan ==> Silent(acts) }

  /** The disk is the same and whatever has been added to the watches is there. */
  predicate QuietGrows(s: State, t: State) {
    && t.disk == s.disk && Quiet(t.plan)
    && forall p :: p in t.gets.monitor && p !in s.gets.monitor ==> p in s.disk.files
  }

  lemma {:induction false} ActsQuiet(s: State, acts: seq<Act>)
    requires Silent(acts) && Quiet(s.plan)
    ensures QuietGrows(s, ActedAll(s, acts))
    decreases |acts|
  {
    if acts != [] {
      assert acts[0] in acts;
      assert forall a :: a in acts[1..] ==> a in acts;
      ActsQuiet(Acted(s, acts[0]), acts[1..]);
    }
  }

  lemma InterleavedQuiet(s: State)
    requires Quiet(s.plan)
    ensures QuietGrows(s, Interleaved(s))
  {
    if s.plan != [] {
      assert s.plan[0] in s.plan;
      assert forall acts :: acts in s.plan[1..] ==> acts in s.plan;
      ActsQuiet(s.(plan := s.plan[1..]), s.plan[0]);
    }
  }

  lemma {:induction false} RunTasksQuiet(s: State, tasks: seq<Task>)
    requires Quiet(s.plan)
    ensures QuietGrows(s, RunTasks(s, tasks))
    decreases |tasks|
  {
    if tasks != [] {
      InterleavedQuiet(s);
      RunTasksQuiet(RunTask(Interleaved(s), tasks[0]), tasks[1..]);
    }
  }

  /** What the callback has been told last, or is about to be told first. */
  function Latest(g: Gets, c: nat): Delivered
    requires c in g.book
  {
    if c in g.delivered then g.delivered[c] else g.book[c].value
  }

  predicate SameLatest(g: Gets, h: Gets) {
    forall c :: c in g.book ==> c in h.book && h.book[c] == g.book[c] && Latest(h, c) == Latest(g, c)
  }

  lemma {:induction false} RunTasksLatest(s: State, tasks: seq<Task>)
    requires Ok(s, tasks)
    ensures SameLatest(s.gets, RunTasks(s, tasks).gets)
    decreases |tasks|
  {
    if tasks != [] {
      var t := Interleaved(s);
      OkBooks(s, tasks);
      InterleavedGrows(s, 0);
      InterleavedKeeps(s, tasks);
      RunTaskKeeps(t, tasks);
      RunTaskLatest(t, tasks);
      RunTasksLatest(RunTask(t, tasks[0]), tasks[1..]);
    }
  }

  lemma RunTaskLatest(t: State, tasks: seq<Task>)
    requires tasks != [] && Ok(t, tasks)
    ensures SameLatest(t.gets, RunTask(t, tasks[0]).gets)
  {
    assert tasks[0] in tasks + t.queue;
  }

  // ---------- contents ----------

  /** What a check without interleaved writes leaves behind for its path and callback. */
  predicate Settled(d: Disk, g: Gets, path: string, time: nat, c: nat) {
    && c in g.delivered
    && (path in g.monitor <==> path in d.files || time == 0)
    && (if path in d.files || time != 0 then g.delivered[c] == Content(d, path) else g.delivered[c] != Gone)
  }

  /** Other paths stay watched, new ones exist, and other callbacks are told nothing. */
  ghost predicate Aside(d: Disk, g: Gets, h: Gets, paths: seq<string>, callbacks: set<nat>) {
    && (forall p :: p !in paths && p in g.monitor ==> p in h.monitor)
    && (forall p :: p !in paths && p in h.monitor && p !in g.monitor ==> p in d.files)
    && (forall b :: b !in callbacks ==> (b in h.delivered <==> b in g.delivered))
    && (forall b :: b !in callbacks && b in g.delivered ==> h.delivered[b] == g.delivered[b])
  }

  /** An older callback has run its first task. */
  lemma OlderIsTold(s: State, c: nat, limit: nat)
    requires Checking(s, limit) && c in s.gets.book && c < limit
    ensures c in s.gets.delivered
  {
    assert [] + s.queue == s.queue;
    assert GetRegOk(s.gets, s.queue, c);
  }

  lemma SameTimeSettled(s: State, path: string, c: nat, limit: nat)
    requires Checking(s, limit) && path in s.gets.monitor && s.gets.monitor[path] == c < limit
    requires ModifyTime(s.disk, path) == s.gets.lastTime[path]
    ensures Settled(s.disk, s.gets, path, s.gets.lastTime[path], c)
  {
    OlderIsTold(s, c, limit);
    assert GetRegOk(s.gets, [] + s.queue, c) && WatchesValue(s.gets, c);
    if path in s.disk.files { assert Told(s.gets, c, Content(s.disk, path)); }
  }

  lemma CheckGetQuiet(s: State, path: string, last: nat, c: nat, limit: nat)
    requires Checking(s, limit) && Quiet(s.plan)
    requires path in s.gets.monitor && s.gets.monitor[path] == c < limit && s.gets.lastTime[path] == last
    ensures var t := CheckGet(s, path, last, c);
            && t.disk == s.disk && Quiet(t.plan)
            && Settled(s.disk, t.gets, path, last, c) && Aside(s.disk, s.gets, t.gets, [path], {c})
  {
    var t := Interleaved(s);
    InterleavedChecking(s, limit);
    InterleavedQuiet(s);
    if last == ModifyTime(s.disk, path) {
      SameTimeSettled(t, path, c, limit);
    } else {
      RereadQuiet(t, path, ModifyTime(s.disk, path), last, c, limit);
    }
  }

  lemma RereadQuiet(s: State, path: string, time: nat, last: nat, c: nat, limit: nat)
    requires Checking(s, limit) && Quiet(s.plan) && path in s.gets.monitor && s.gets.monitor[path] == c < limit
    requires DiskOk(s.disk) && time == ModifyTime(s.disk, path) != last
    ensures var t := Reread(s, path, c, time);
            && t.disk == s.disk && Quiet(t.plan)
            && Settled(s.disk, t.gets, path, last, c) && Aside(s.disk, s.gets, t.gets, [path], {c})
  {
    InterleavedChecking(s, limit);
    InterleavedQuiet(s);
  }

  /** The callbacks of the paths. */
  function CallbacksOf(order: seq<string>, monitor: map<string, nat>): set<nat>
    requires forall p :: p in order ==> p in monitor
  {
    set p | p in order :: monitor[p]
  }

  predicate OneEach(monitor: map<string, nat>) {
    forall p, q :: p in monitor && q in monitor && monitor[p] == monitor[q] ==> p == q
  }

  /** What is settled stays so while other paths are checked. */
  lemma SettledStays(d: Disk, g: Gets, h: Gets, path: string, time: nat, c: nat, paths: seq<string>,
                     callbacks: set<nat>)
    requires Settled(d, g, path, time, c) && Aside(d, g, h, paths, callbacks) && path !in paths && c !in callbacks
    ensures Settled(d, h, path, time, c)
  {}

  lemma AsideTransitive(d: Disk, g: Gets, h: Gets, k: Gets, order: seq<string>, monitor: map<string, nat>)
    requires order != [] && forall p :: p in order ==> p in monitor
    requires Aside(d, g, h, [order[0]], {monitor[order[0]]})
    requires Aside(d, h, k, order[1..], CallbacksOf(order[1..], monitor))
    ensures Aside(d, g, k, order, CallbacksOf(order, monitor))
  {
    assert forall p :: p in order <==> p == order[0] || p in order[1..];
    assert forall b :: b in CallbacksOf(order[1..], monitor) ==> b in CallbacksOf(order, monitor);
  }

  lemma {:induction false} CheckGetsQuiet(s: State, order: seq<string>, times: map<string, nat>,
                                          monitor: map<string, nat>, limit: nat)
    requires Checking(s, limit) && Quiet(s.plan) && Distinct(order) && OneEach(monitor)
    requires GetWaiting(s.gets, order, times, monitor, limit)
    ensures var t := CheckGets(s, order, times, monitor);
            && t.disk == s.disk && Aside(s.disk, s.gets, t.gets, order, CallbacksOf(order, monitor))
            && forall p :: p in order ==> Settled(s.disk, t.gets, p, times[p], monitor[p])
    decreases |order|
  {
    if order != [] {
      var p, rest := order[0], order[1..];
      var u := CheckGet(s, p, times[p], monitor[p]);
      CheckGetQuiet(s, p, times[p], monitor[p], limit);
      CheckGetKeeps(s, p, times[p], monitor[p], limit);
      CheckGetOthers(s, p, times[p], monitor[p], limit);
      GetStillWaiting(s.gets, u.gets, order, times, monitor, limit);
      CheckGetsQuiet(u, rest, times, monitor, limit);
      var t := CheckGets(s, order, times, monitor);
      AsideTransitive(s.disk, s.gets, u.gets, t.gets, order, monitor);
      SettledStays(s.disk, u.gets, t.gets, p, times[p], monitor[p], rest, CallbacksOf(rest, monitor));
      assert forall q :: q in order <==> q == p || q in rest;
    }
  }

  lemma {:induction false} CheckExistsQuiet(s: State, order: seq<string>, last: map<string, bool>,
                                            monitor: map<string, nat>)
    requires Quiet(s.plan) && forall p :: p in order ==> p in last && p in monitor
    ensures QuietGrows(s, CheckExists(s, order, last, monitor))
    decreases |order|
  {
    if order != [] {
      InterleavedQuiet(s);
      CheckExistsQuiet(CheckExist(s, order[0], last[order[0]], monitor[order[0]]), order[1..], last, monitor);
    }
  }

  /** The callback knows its file: its content, or that it is gone and in neither map. */
  predicate Knows(s: State, c: nat)
    requires c in s.gets.book
  {
    var path := s.gets.book[c].path;
    && c in s.gets.delivered && s.gets.delivered[c] == Content(s.disk, path)
    && (path !in s.disk.files ==> path !in s.gets.monitor && path !in s.gets.lastTime)
  }

  /** It is watched for, or what it was told last still holds; and its path is not one with a
      recorded time of 0 whose file is missing. */
  predicate WillKnow(s: State, c: nat)
    requires c in s.gets.book && KeysOk(s)
  {
    var path := s.gets.book[c].path;
    && (WatchesValue(s.gets, c) || Latest(s.gets, c) == Content(s.disk, path))
    && (path in s.gets.monitor ==> s.gets.lastTime[path] != 0 || path in s.disk.files)
  }

  lemma QuietGrowsTransitive(s: State, t: State, u: State)
    requires QuietGrows(s, t) && QuietGrows(t, u)
    ensures QuietGrows(s, u)
  {}

  lemma LatestGrows(g: Gets, h: Gets, k: Gets, limit: nat)
    requires SameLatest(g, h) && GetsGrow(h, k, limit)
    ensures SameLatest(g, k)
  {}

  lemma QuietTasks(s: State, plan: seq<seq<Act>>)
    requires Ok(s, []) && Quiet(plan)
    ensures QuietGrows(s.(plan := plan), Dealt(s, plan)) && SameLatest(s.gets, Dealt(s, plan).gets)
  {
    var s0 := s.(plan := plan, queue := []);
    RunTasksQuiet(s0, s.queue);
    assert [] + s.queue == s.queue == s.queue + [];
    RunTasksLatest(s0, s.queue);
  }

  /** The state a round's content checks start from. */
  lemma QuietStatuses(s: State, plan: seq<seq<Act>>, existOrder: seq<string>, getOrder: seq<string>)
    requires Ok(s, []) && CanHappen(s, Poll(plan, existOrder, getOrder)) && Quiet(plan)
    ensures var s2 := Compared(s, plan, existOrder);
            QuietGrows(s.(plan := plan), s2) && SameLatest(s.gets, s2.gets)
  {
    var s1, s2 := Dealt(s, plan), Compared(s, plan, existOrder);
    QuietTasks(s, plan);
    OrderIs(existOrder, s.exist.monitor.Keys);
    CheckExistsQuiet(s1, existOrder, s.exist.lastStatus, s.exist.monitor);
    QuietGrowsTransitive(s.(plan := plan), s1, s2);
    ComparedIsChecking(s, plan, existOrder, getOrder);
    LatestGrows(s.gets, s1.gets, s2.gets, s.next);
  }

  /** What a round's content checks leave. */
  lemma QuietContents(s: State, plan: seq<seq<Act>>, existOrder: seq<string>, getOrder: seq<string>)
    requires Ok(s, []) && CanHappen(s, Poll(plan, existOrder, getOrder)) && Quiet(plan)
    ensures var s2, t := Compared(s, plan, existOrder), Polled(s, plan, existOrder, getOrder);
            && t.disk == s.disk && (forall p :: p in getOrder <==> p in s.gets.monitor)
            && Aside(s.disk, s2.gets, t.gets, getOrder, CallbacksOf(getOrder, s.gets.monitor))
            && (forall p :: p in getOrder ==> Settled(s.disk, t.gets, p, s.gets.lastTime[p], s.gets.monitor[p]))
  {
    OkBooks(s, []);
    OrderIs(getOrder, s.gets.monitor.Keys);
    QuietStatuses(s, plan, existOrder, getOrder);
    ComparedIsChecking(s, plan, existOrder, getOrder);
    CheckGetsQuiet(Compared(s, plan, existOrder), getOrder, s.gets.lastTime, s.gets.monitor, s.next);
  }

  /** After a round without interleaved writes, any callback registered before it knows its file if
      and only if it was watched for or up to date, and its path is not a missing file whose
      recorded time is 0. */
  lemma QuietPollInforms(s: State, plan: seq<seq<Act>>, existOrder: seq<string>, getOrder: seq<string>, c: nat)
    requires Ok(s, []) && CanHappen(s, Poll(plan, existOrder, getOrder)) && Quiet(plan) && c in s.gets.book
    ensures var t := Polled(s, plan, existOrder, getOrder);
            && t.disk == s.disk && c in t.gets.book && t.gets.book[c] == s.gets.book[c]
            && (Knows(t, c) <==> WillKnow(s, c))
  {
    var t := Polled(s, plan, existOrder, getOrder);
    QuietContents(s, plan, existOrder, getOrder);
    RoundKeepsBook(s, plan, existOrder, getOrder);
    if WatchesValue(s.gets, c) {
      WatcherInformed(s, t, getOrder, c);
    } else {
      QuietStatuses(s, plan, existOrder, getOrder);
      ComparedIsChecking(s, plan, existOrder, getOrder);
      OlderIsTold(Compared(s, plan, existOrder), c, s.next);
      BystanderInformed(s, Compared(s, plan, existOrder), t, getOrder, c);
    }
  }

  lemma RoundKeepsBook(s: State, plan: seq<seq<Act>>, existOrder: seq<string>, getOrder: seq<string>)
    requires Ok(s, []) && CanHappen(s, Poll(plan, existOrder, getOrder))
    ensures var t := Polled(s, plan, existOrder, getOrder); Later(s, t) && KeysOk(s) && KeysOk(t)
    ensures forall c :: c in s.gets.book || c in s.exist.book ==> c < s.next
  {
    OkBooks(s, []);
    HappenedLater(s, Poll(plan, existOrder, getOrder));
    PolledKeeps(s, plan, existOrder, getOrder);
    OkBooks(Polled(s, plan, existOrder, getOrder), []);
  }

  lemma WatcherInformed(s: State, t: State, order: seq<string>, c: nat)
    requires KeysOk(s) && KeysOk(t) && c in s.gets.book && WatchesValue(s.gets, c) && t.disk == s.disk
    requires c in t.gets.book && t.gets.book[c] == s.gets.book[c] && forall p :: p in order <==> p in s.gets.monitor
    requires forall p :: p in order ==> Settled(s.disk, t.gets, p, s.gets.lastTime[p], s.gets.monitor[p])
    ensures Knows(t, c) <==> WillKnow(s, c)
  {
    var p := s.gets.book[c].path;
    assert Settled(s.disk, t.gets, p, s.gets.lastTime[p], c);
  }

  lemma BystanderInformed(s: State, s2: State, t: State, order: seq<string>, c: nat)
    requires KeysOk(s) && KeysOk(t) && c in s.gets.book && !WatchesValue(s.gets, c) && t.disk == s.disk
    requires c in t.gets.book && t.gets.book[c] == s.gets.book[c] && forall p :: p in order <==> p in s.gets.monitor
    requires GetPathsOk(s.gets) && SameLatest(s.gets, s2.gets) && c in s2.gets.delivered && QuietGrows(s, s2)
    requires Aside(s.disk, s2.gets, t.gets, order, CallbacksOf(order, s.gets.monitor))
    requires forall p :: p in order ==> Settled(s.disk, t.gets, p, s.gets.lastTime[p], s.gets.monitor[p])
    ensures Knows(t, c) <==> WillKnow(s, c)
  {
    var p := s.gets.book[c].path;
    assert c !in CallbacksOf(order, s.gets.monitor);
    assert t.gets.delivered[c] == Latest(s.gets, c);
    if p in order { assert Settled(s.disk, t.gets, p, s.gets.lastTime[p], s.gets.monitor[p]); }
  }

  // ---------- statuses ----------

  /** The checks of contents tell no existence callback anything. */
  lemma {:induction false} CheckGetsExists(s: State, order: seq<string>, times: map<string, nat>,
                                           monitor: map<string, nat>, limit: nat)
    requires Checking(s, limit) && Distinct(order) && GetWaiting(s.gets, order, times, monitor, limit)
    ensures ExistsGrow(s.exist, CheckGets(s, order, times, monitor).exist, limit)
    decreases |order|
  {
    if order != [] {
      var p := order[0];
      var t := CheckGet(s, p, times[p], monitor[p]);
      CheckGetKeeps(s, p, times[p], monitor[p], limit);
      CheckGetOthers(s, p, times[p], monitor[p], limit);
      CheckGetExists(s, p, times[p], monitor[p], limit);
      GetStillWaiting(s.gets, t.gets, order, times, monitor, limit);
      CheckGetsExists(t, order[1..], times, monitor, limit);
      ExistsGrowTransitive(s.exist, t.exist, CheckGets(s, order, times, monitor).exist, limit);
    }
  }

  lemma CheckGetExists(s: State, path: string, last: nat, c: nat, limit: nat)
    requires Checking(s, limit)
    ensures ExistsGrow(s.exist, CheckGet(s, path, last, c).exist, limit)
  {
    InterleavedChecking(s, limit);
    InterleavedChecking(Interleaved(s), limit);
    ExistsGrowTransitive(s.exist, Interleaved(s).exist, Interleaved(Interleaved(s)).exist, limit);
  }

  lemma ExistsGrowTransitive(x: Exists, y: Exists, z: Exists, limit: nat)
    requires ExistsGrow(x, y, limit) && ExistsGrow(y, z, limit)
    ensures ExistsGrow(x, z, limit)
  {}

  predicate Recorded(d: Disk, x: Exists, p: string) { p in x.lastStatus && x.lastStatus[p] == (p in d.files) }

  lemma CheckExistRecords(s: State, path: string, last: bool, c: nat, limit: nat)
    requires Checking(s, limit) && Quiet(s.plan) && path in s.exist.monitor && s.exist.monitor[path] == c < limit
    requires s.exist.lastStatus[path] == last
    ensures var t := CheckExist(s, path, last, c);
            t.disk == s.disk && Quiet(t.plan) && Recorded(s.disk, t.exist, path)
  {
    InterleavedChecking(s, limit);
    InterleavedQuiet(s);
  }

  lemma {:induction false} CheckExistsRecord(s: State, order: seq<string>, last: map<string, bool>,
                                             monitor: map<string, nat>, limit: nat)
    requires Checking(s, limit) && Quiet(s.plan) && Distinct(order)
    requires ExistWaiting(s.exist, order, last, monitor, limit)
    ensures var t := CheckExists(s, order, last, monitor);
            && (forall p :: p in order ==> Recorded(s.disk, t.exist, p))
            && (forall p :: p in s.exist.lastStatus && p !in order ==>
                  p in t.exist.lastStatus && t.exist.lastStatus[p] == s.exist.lastStatus[p])
    decreases |order|
  {
    if order != [] {
      var p := order[0];
      var u := CheckExist(s, p, last[p], monitor[p]);
      CheckExistKeeps(s, p, last[p], monitor[p], limit);
      CheckExistOthers(s, p, last[p], monitor[p], limit);
      CheckExistRecords(s, p, last[p], monitor[p], limit);
      ExistStillWaiting(s.exist, u.exist, order, last, monitor, limit);
      CheckExistsRecord(u, order[1..], last, monitor, limit);
      assert forall q :: q in order <==> q == p || q in order[1..];
    }
  }

  predicate KnowsStatus(s: State, c: nat)
    requires c in s.exist.book
  {
    c in s.exist.told && s.exist.told[c] != [] && Last(s.exist.told[c]) == (s.exist.book[c].path in s.disk.files)
  }

  /** After a round without interleaved writes, any existence callback registered before it was told
      the real status last if and only if it is watched for or was registered with that status. */
  lemma QuietPollTellsStatus(s: State, plan: seq<seq<Act>>, existOrder: seq<string>, getOrder: seq<string>, c: nat)
    requires Ok(s, []) && CanHappen(s, Poll(plan, existOrder, getOrder)) && Quiet(plan) && c in s.exist.book
    ensures var t := Polled(s, plan, existOrder, getOrder);
            && t.disk == s.disk && c in t.exist.book && t.exist.book[c] == s.exist.book[c]
            && (KnowsStatus(t, c) <==>
                WatchesStatus(s.exist, c) || s.exist.book[c].existed == (s.exist.book[c].path in s.disk.files))
  {
    var s2, t := Compared(s, plan, existOrder), Polled(s, plan, existOrder, getOrder);
    QuietContents(s, plan, existOrder, getOrder);
    RoundKeepsBook(s, plan, existOrder, getOrder);
    StatusesRecorded(s, plan, existOrder, getOrder);
    ComparedIsChecking(s, plan, existOrder, getOrder);
    CheckGetsExists(s2, getOrder, s.gets.lastTime, s.gets.monitor, s.next);
    ComparedLater(s, plan, existOrder);
    ToldInTheEnd(s, s2, t, c);
  }

  lemma ComparedLater(s: State, plan: seq<seq<Act>>, existOrder: seq<string>)
    requires Ok(s, []) && KeysOk(s) && IsOrder(existOrder, s.exist.monitor.Keys)
    ensures Later(s, Compared(s, plan, existOrder))
  {
    OkBooks(s, []);
    OrderIs(existOrder, s.exist.monitor.Keys);
    RunTasksLater(s.(plan := plan, queue := []), s.queue);
    CheckExistsLater(Dealt(s, plan), existOrder, s.exist.lastStatus, s.exist.monitor);
  }

  lemma StatusesRecorded(s: State, plan: seq<seq<Act>>, existOrder: seq<string>, getOrder: seq<string>)
    requires Ok(s, []) && CanHappen(s, Poll(plan, existOrder, getOrder)) && Quiet(plan)
    ensures forall p :: p in s.exist.monitor ==> Recorded(s.disk, Compared(s, plan, existOrder).exist, p)
  {
    OrderIs(existOrder, s.exist.monitor.Keys);
    DealtIsChecking(s, plan);
    SnapshotWaits(s, plan, existOrder, getOrder);
    QuietTasks(s, plan);
    CheckExistsRecord(Dealt(s, plan), existOrder, s.exist.lastStatus, s.exist.monitor, s.next);
  }

  lemma ToldInTheEnd(s: State, s2: State, t: State, c: nat)
    requires Ok(s, []) && Checking(s2, s.next) && ExistsGrow(s2.exist, t.exist, s.next) && t.disk == s.disk
    requires c in s.exist.book && c in t.exist.book && t.exist.book[c] == s.exist.book[c]
    requires c in s2.exist.book && s2.exist.book[c] == s.exist.book[c]
    requires forall p :: p in s.exist.monitor ==> Recorded(s.disk, s2.exist, p)
    ensures KnowsStatus(t, c) <==>
              WatchesStatus(s.exist, c) || s.exist.book[c].existed == (s.exist.book[c].path in s.disk.files)
  {
    assert [] + s.queue == s.queue && [] + s2.queue == s2.queue;
    assert ExistRegOk(s.exist, s.queue, c);
    assert ExistRegOk(s2.exist, s2.queue, c);
    var p := s.exist.book[c].path;
    if WatchesStatus(s.exist, c) { assert StatusOk(s2.exist, p); }
  }
}
