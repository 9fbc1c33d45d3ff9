/** Two histories of the local file monitor after which a callback is left behind for good. */
module LocalFileHistories {
  import opened Seqs
  import opened LocalFile
  import opened LocalFileKeeps
  import opened LocalFilePoll

  const PATH := "f"
  const OLD := Disk(map[PATH := File("a", 1)], 1)
  const MISSING := Disk(map[], 1)
  const BACK := Disk(map[PATH := File("b", 2)], 2)
  const MISSING_AGAIN := Disk(map[], 2)
  const CHANGED := Disk(map[PATH := File("c", 3)], 3)

  const NOTHING := Exists(map[], map[], map[], map[])

  /** One callback is watched for and has been told the old content. */
  function Watching(disk: Disk): State {
    State(disk, NOTHING,
          Gets(map[PATH := 1], map[PATH := 0], map[0 := Value("a")], map[0 := 1],
               map[0 := GetReg(PATH, Value("a"), true)]),
          [], 1, [])
  }

  const REGISTER := Others([WatchValue(PATH)])
  const ROUND := Poll([], [], [PATH])

  lemma OneAct(s: State, a: Act)
    ensures ActedAll(s, [a]) == Acted(s, a)
  {
    assert [a][1..] == [];
  }

  lemma OneOrder()
    ensures IsOrder([], {}) && IsOrder([PATH], {PATH})
  {
    assert Elements<string>([]) == {};
    assert Elements([PATH]) == {PATH};
  }

  /** A round that checks the one watched path. */
  lemma OneCheck(s: State, plan: seq<seq<Act>>)
    requires s.exist == NOTHING && s.queue == [] && s.gets.lastTime.Keys == s.gets.monitor.Keys == {PATH}
    ensures CanHappen(s, Poll(plan, [], [PATH]))
    ensures Polled(s, plan, [], [PATH]) == CheckGet(s.(plan := plan), PATH, s.gets.lastTime[PATH], s.gets.monitor[PATH])
  {
    OneOrder();
    var s0, times, monitor := s.(plan := plan), s.gets.lastTime, s.gets.monitor;
    assert s.(plan := plan, queue := []) == s0;
    assert Dealt(s, plan) == s0 && Compared(s, plan, []) == s0;
    CheckOne(s0, times, monitor);
  }

  lemma CheckOne(s: State, times: map<string, nat>, monitor: map<string, nat>)
    requires PATH in times && PATH in monitor
    ensures CheckGets(s, [PATH], times, monitor) == CheckGet(s, PATH, times[PATH], monitor[PATH])
  {
    var rest: seq<string> := [];
    assert [PATH][1..] == rest;
    assert forall t :: CheckGets(t, rest, times, monitor) == t;
  }

  lemma Registered()
    ensures CanHappen(Start(OLD), REGISTER)
    ensures var s := Happened(Start(OLD), REGISTER); CanHappen(s, ROUND) && Happened(s, ROUND) == Watching(OLD)
  {
    var s := Acted(Start(OLD), WatchValue(PATH));
    OneAct(Start(OLD), WatchValue(PATH));
    var task := GetTask(0, Value("a"));
    var gets := Gets(map[PATH := 1], map[PATH := 0], map[], map[], Watching(OLD).gets.book);
    assert s == State(OLD, NOTHING, gets, [task], 1, []);
    OneOrder();
    DealOne(s, task);
    assert Dealt(s, []) == Watching(OLD) by {
      assert s.gets.delivered[0 := Value("a")] == map[0 := Value("a")] && s.gets.calls[0 := 1] == map[0 := 1];
    }
    assert Compared(s, [], []) == Watching(OLD);
    CheckOne(Watching(OLD), s.gets.lastTime, s.gets.monitor);
    assert CheckGet(Watching(OLD), PATH, 1, 0) == Watching(OLD);
  }

  /** A round with one queued task and nobody else about. */
  lemma DealOne(s: State, task: Task)
    requires s.queue == [task]
    ensures Dealt(s, []) == RunTask(s.(plan := [], queue := []), task)
  {
    var rest: seq<Task> := [];
    var s0 := s.(plan := [], queue := []);
    assert s.queue[0] == task && s.queue[1..] == rest;
    assert Interleaved(s0) == s0;
    assert RunTasks(RunTask(s0, task), rest) == RunTask(s0, task);
    assert Dealt(s, []) == RunTasks(s0, s.queue) == RunTasks(RunTask(s0, task), rest);
  }

  lemma Deleted()
    ensures Happened(Watching(OLD), Others([Write(MISSING)])) == Watching(MISSING)
  {
    OneAct(Watching(OLD), Write(MISSING));
  }

  // ---------- a registration that is lost ----------

  const LOSING := Poll([[], [Write(BACK), WatchValue(PATH)]], [], [PATH])

  /** The first callback has been told that the file is gone; the second is registered, queued and
      watched for by nobody. */
  function Lost(): State {
    State(BACK, NOTHING,
          Gets(map[], map[], map[0 := Gone], map[0 := 2],
               map[0 := GetReg(PATH, Value("a"), true), 1 := GetReg(PATH, Value("b"), false)]),
          [GetTask(1, Value("b"))], 2, [])
  }

  lemma Losing()
    ensures CanHappen(Watching(MISSING), LOSING) && Happened(Watching(MISSING), LOSING) == Lost()
  {
    var s := Watching(MISSING);
    var acts := [Write(BACK), WatchValue(PATH)];
    OneCheck(s, [[], acts]);
    var rest: seq<seq<Act>> := [];
    var t := s.(plan := [acts]);
    assert t.plan[1..] == rest;
    assert [[], acts][1..] == [acts];
    assert Interleaved(s.(plan := [[], acts])) == t;
    assert acts[1..] == [WatchValue(PATH)];
    OneAct(s.(disk := BACK), WatchValue(PATH));
    var u := Interleaved(t);
    assert u == ActedAll(s, acts) == Acted(s.(disk := BACK), WatchValue(PATH));
    assert u.gets.monitor == map[PATH := 0];
    assert Reread(t, PATH, 0, 0).gets == Forget(u.gets, PATH, 0);
  }

  const LOSS := [REGISTER, ROUND, Others([Write(MISSING)]), LOSING]

  /** The file is gone when a poll reads it, and comes back and is registered for again before the
      poll forgets the path: the second callback is told one value, and in every run from there, whatever
      becomes of the file, nothing else. */
  lemma LostRegistration(later: seq<Event>)
    requires IsRun(Lost(), later)
    ensures IsRun(Start(OLD), LOSS) && End(Start(OLD), LOSS) == Lost()
    ensures var t := End(Lost(), later);
            && !WatchesValue(t.gets, 1) && (1 in t.gets.delivered ==> t.gets.delivered[1] == Value("b"))
            && (Content(t.disk, PATH) != Value("b") ==> 1 in t.gets.book && !Knows(t, 1))
  {
    Registered();
    Deleted();
    Losing();
    FourEvents(Start(OLD), LOSS[0], LOSS[1], LOSS[2], LOSS[3]);
    StartOk(OLD);
    RunKeeps(Start(OLD), LOSS);
    RunKeeps(Lost(), later);
    RunLater(Lost(), later);
    var t := End(Lost(), later);
    assert 1 in Lost().gets.book;
    assert GetRegOk(t.gets, [] + t.queue, 1);
  }

  lemma EventFirst(s: State, e: Event, later: seq<Event>)
    requires CanHappen(s, e) && IsRun(Happened(s, e), later)
    ensures IsRun(s, [e] + later) && End(s, [e] + later) == End(Happened(s, e), later)
  {
    assert ([e] + later)[0] == e && ([e] + later)[1..] == later;
  }

  lemma FourEvents(s: State, a: Event, b: Event, c: Event, d: Event)
    requires CanHappen(s, a) && CanHappen(Happened(s, a), b)
    requires var u := Happened(Happened(s, a), b); CanHappen(u, c) && CanHappen(Happened(u, c), d)
    ensures IsRun(s, [a, b, c, d])
    ensures End(s, [a, b, c, d]) == Happened(Happened(Happened(Happened(s, a), b), c), d)
  {
    var s1 := Happened(s, a);
    var s2 := Happened(s1, b);
    var s3 := Happened(s2, c);
    var none: seq<Event> := [];
    EventFirst(s3, d, none);
    EventFirst(s2, c, [d] + none);
    EventFirst(s1, b, [c] + ([d] + none));
    EventFirst(s, a, [b] + ([c] + ([d] + none)));
    assert [a] + ([b] + ([c] + ([d] + none))) == [a, b, c, d];
  }

  // ---------- a deletion that is never reported ----------

  const CONFUSING := Poll([[Write(BACK)]], [], [PATH])

  /** The recorded time is that of a missing file. */
  function Confused(disk: Disk): State {
    State(disk, NOTHING,
          Gets(map[PATH := 0], map[PATH := 0], map[0 := Value("b")], map[0 := 2],
               map[0 := GetReg(PATH, Value("a"), true)]),
          [], 1, [])
  }

  lemma Confusing()
    ensures CanHappen(Watching(MISSING), CONFUSING) && Happened(Watching(MISSING), CONFUSING) == Confused(BACK)
  {
    var s := Watching(MISSING);
    OneCheck(s, [[Write(BACK)]]);
    OneAct(s, Write(BACK));
    var plan, rest: seq<seq<Act>> := [[Write(BACK)]], [];
    assert plan[1..] == rest;
    var t := Interleaved(s.(plan := plan));
    assert t == s.(disk := BACK);
    assert Reread(t, PATH, 0, 0) == Confused(BACK);
  }

  const CONFUSION := [REGISTER, ROUND, Others([Write(MISSING)]), CONFUSING]

  lemma Confusion()
    ensures IsRun(Start(OLD), CONFUSION) && End(Start(OLD), CONFUSION) == Confused(BACK)
    ensures Happened(Confused(BACK), Others([Write(MISSING_AGAIN)])) == Confused(MISSING_AGAIN)
    ensures Ok(Confused(MISSING_AGAIN), [])
  {
    Registered();
    Deleted();
    Confusing();
    FourEvents(Start(OLD), CONFUSION[0], CONFUSION[1], CONFUSION[2], CONFUSION[3]);
    StartOk(OLD);
    RunKeeps(Start(OLD), CONFUSION);
    GoneAgain();
  }

  lemma GoneAgain()
    requires Ok(Confused(BACK), [])
    ensures Happened(Confused(BACK), Others([Write(MISSING_AGAIN)])) == Confused(MISSING_AGAIN)
    ensures Ok(Confused(MISSING_AGAIN), [])
  {
    OneAct(Confused(BACK), Write(MISSING_AGAIN));
    ActKeeps(Confused(BACK), Write(MISSING_AGAIN), []);
  }

  /** The file is missing when its time is read and back when its content is read, so that the time
      of a missing file is recorded; when it goes again, no poll without interleaved writes reports it. */
  lemma DeletionIsMissed(plan: seq<seq<Act>>)
    requires Quiet(plan)
    ensures IsRun(Start(OLD), CONFUSION) && End(Start(OLD), CONFUSION) == Confused(BACK)
    ensures Happened(Confused(BACK), Others([Write(MISSING_AGAIN)])) == Confused(MISSING_AGAIN)
    ensures CanHappen(Confused(MISSING_AGAIN), Poll(plan, [], [PATH]))
    ensures var t := Polled(Confused(MISSING_AGAIN), plan, [], [PATH]);
            t.disk == MISSING_AGAIN && 0 in t.gets.book && !Knows(t, 0)
  {
    Confusion();
    OneCheck(Confused(MISSING_AGAIN), plan);
    QuietPollInforms(Confused(MISSING_AGAIN), plan, [], [PATH], 0);
  }
}
