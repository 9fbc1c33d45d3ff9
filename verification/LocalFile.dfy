/**
 * The polling monitor of local files.  A poll takes a snapshot under the lock, runs the queued
 * tasks and compares the disk with the snapshot, path by path.  Other programs write files and the
 * user registers watches between any two reads of the poll: `plan` says what they do at each of
 * these points, and the results hold for every plan.  Every write of a file gives it a modification
 * time it never had; time 0 is what the code uses for a file that is not there.
 */
module LocalFile {
  import opened Seqs

  datatype File = File(content: string, mtime: nat)

  datatype Disk = Disk(files: map<string, File>, clock: nat)

  /** What a callback is told of a value: the content, or that the file does not exist. */
  datatype Delivered = Value(content: string) | Gone

  /** The first notification of a watch, queued when it is registered. */
  datatype Task = ExistTask(callback: nat, existed: bool) | GetTask(callback: nat, value: Delivered)

  /** A registration: what the disk said, and whether the path had no watch yet. */
  datatype ExistReg = ExistReg(path: string, existed: bool, free: bool)
  datatype GetReg = GetReg(path: string, value: Delivered, free: bool)

  /** The existence half: last status and callback per path; the statuses told to each callback. */
  datatype Exists = Exists(lastStatus: map<string, bool>, monitor: map<string, nat>,
                           told: map<nat, seq<bool>>, book: map<nat, ExistReg>)

  /** The content half: last time and callback per path; what each callback was told last, and how often
      it was called. */
  datatype Gets = Gets(lastTime: map<string, nat>, monitor: map<string, nat>,
                       delivered: map<nat, Delivered>, calls: map<nat, nat>, book: map<nat, GetReg>)

  /** What others do between two reads of the poll. */
  datatype Act = Write(after: Disk) | WatchStatus(path: string) | WatchValue(path: string)

  datatype State = State(disk: Disk, exist: Exists, gets: Gets, queue: seq<Task>, next: nat, plan: seq<seq<Act>>)

  // ---------- the disk ----------

  predicate DiskOk(d: Disk) { forall p :: p in d.files ==> 0 < d.files[p].mtime <= d.clock }

  /** Files may have come, gone and changed; what still has an old time is still the old file. */
  predicate Evolves(d: Disk, e: Disk) {
    && d.clock <= e.clock && DiskOk(e)
    && forall p :: p in e.files && e.files[p].mtime <= d.clock ==> p in d.files && d.files[p] == e.files[p]
  }

  function ModifyTime(d: Disk, path: string): nat { if path in d.files then d.files[path].mtime else 0 }

  function Content(d: Disk, path: string): Delivered {
    if path in d.files then Value(d.files[path].content) else Gone
  }

  // ---------- registrations ----------

  /** exists_path: the path is watched if it is not yet watched. */
  function AddExists(x: Exists, path: string, existed: bool, callback: nat): Exists {
    var y := x.(book := x.book[callback := ExistReg(path, existed, path !in x.monitor)]);
    if path in x.monitor then y
    else y.(lastStatus := x.lastStatus[path := existed], monitor := x.monitor[path := callback])
  }

  /** get_path_value: the path is watched if it exists and is not yet watched. */
  function AddGet(g: Gets, d: Disk, path: string, callback: nat): Gets {
    var h := g.(book := g.book[callback := GetReg(path, Content(d, path), path !in g.monitor)]);
    if path !in d.files || path in g.monitor then h
    else h.(lastTime := g.lastTime[path := ModifyTime(d, path)], monitor := g.monitor[path := callback])
  }

  /** One act of somebody else. A write that would bring an old time back does not happen. */
  function Acted(s: State, act: Act): State {
    match act
    case Write(after) => if Evolves(s.disk, after) then s.(disk := after) else s
    case WatchStatus(path) =>
      var existed := path in s.disk.files;
      s.(exist := AddExists(s.exist, path, existed, s.next),
         queue := s.queue + [ExistTask(s.next, existed)], next := s.next + 1)
    case WatchValue(path) =>
      s.(gets := AddGet(s.gets, s.disk, path, s.next),
         queue := s.queue + [GetTask(s.next, Content(s.disk, path))], next := s.next + 1)
  }

  function ActedAll(s: State, acts: seq<Act>): State
    decreases |acts|
  {
    if acts == [] then s else ActedAll(Acted(s, acts[0]), acts[1..])
  }

  /** A point between two reads of the poll: the next part of the plan happens. */
  function Interleaved(s: State): State {
    if s.plan == [] then s else ActedAll(s.(plan := s.plan[1..]), s.plan[0])
  }

  // ---------- the poll ----------

  function Calls(g: Gets, callback: nat): nat { if callback in g.calls then g.calls[callback] else 0 }

  /** A content callback is called. */
  function Deliver(g: Gets, callback: nat, value: Delivered): Gets {
    g.(delivered := g.delivered[callback := value], calls := g.calls[callback := Calls(g, callback) + 1])
  }

  function RunTask(s: State, t: Task): State {
    match t
    case ExistTask(c, existed) => s.(exist := s.exist.(told := s.exist.told[c := [existed]]))
    case GetTask(c, value) => s.(gets := Deliver(s.gets, c, value))
  }

  function RunTasks(s: State, tasks: seq<Task>): State
    decreases |tasks|
  {
    if tasks == [] then s else RunTasks(RunTask(Interleaved(s), tasks[0]), tasks[1..])
  }

  /** A changed status is recorded and reported. */
  function Flip(x: Exists, path: string, callback: nat, status: bool): Exists {
    var before := if callback in x.told then x.told[callback] else [];
    x.(lastStatus := x.lastStatus[path := status], told := x.told[callback := before + [status]])
  }

  function CheckExist(s: State, path: string, last: bool, callback: nat): State {
    var status := path in s.disk.files;
    var t := Interleaved(s);
    if last == status then t else t.(exist := Flip(t.exist, path, callback, status))
  }

  function CheckExists(s: State, order: seq<string>, last: map<string, bool>, monitor: map<string, nat>): State
    requires forall p :: p in order ==> p in last && p in monitor
    decreases |order|
  {
    if order == [] then s
    else CheckExists(CheckExist(s, order[0], last[order[0]], monitor[order[0]]), order[1..], last, monitor)
  }

  /** The file is gone: the callback is told, and the path is watched no more. */
  function Forget(g: Gets, path: string, callback: nat): Gets {
    Deliver(g, callback, Gone).(lastTime := g.lastTime - {path}, monitor := g.monitor - {path})
  }

  /** The content is told and the time recorded. */
  function Report(g: Gets, path: string, callback: nat, time: nat, value: Delivered): Gets {
    Deliver(g, callback, value).(lastTime := g.lastTime[path := time])
  }

  /** One path of handle_monitor_get: the time is read, then the content, then something is told. */
  function CheckGet(s: State, path: string, last: nat, callback: nat): State {
    var time := ModifyTime(s.disk, path);
    var t := Interleaved(s);
    if last == time then t else Reread(t, path, callback, time)
  }

  function Reread(s: State, path: string, callback: nat, time: nat): State {
    var value := Content(s.disk, path);
    var t := Interleaved(s);
    t.(gets := if value == Gone then Forget(t.gets, path, callback) else Report(t.gets, path, callback, time, value))
  }

  function CheckGets(s: State, order: seq<string>, times: map<string, nat>, monitor: map<string, nat>): State
    requires forall p :: p in order ==> p in times && p in monitor
    decreases |order|
  {
    if order == [] then s
    else CheckGets(CheckGet(s, order[0], times[order[0]], monitor[order[0]]), order[1..], times, monitor)
  }

  /** The order in which a hash map is gone through. */
  predicate IsOrder(order: seq<string>, keys: set<string>) { Distinct(order) && Elements(order) == keys }

  /** Every watched path has both of its entries. */
  predicate KeysOk(s: State) {
    s.exist.lastStatus.Keys == s.exist.monitor.Keys && s.gets.lastTime.Keys == s.gets.monitor.Keys
  }

  /** A round after its tasks. */
  function Dealt(s: State, plan: seq<seq<Act>>): State {
    RunTasks(s.(plan := plan, queue := []), s.queue)
  }

  /** A round after its statuses have been compared with the snapshot. */
  function Compared(s: State, plan: seq<seq<Act>>, existOrder: seq<string>): State
    requires KeysOk(s) && IsOrder(existOrder, s.exist.monitor.Keys)
  {
    CheckExists(Dealt(s, plan), existOrder, s.exist.lastStatus, s.exist.monitor)
  }

  /** One round: snapshot, tasks, statuses, contents. */
  function Polled(s: State, plan: seq<seq<Act>>, existOrder: seq<string>, getOrder: seq<string>): State
    requires KeysOk(s) && IsOrder(existOrder, s.exist.monitor.Keys) && IsOrder(getOrder, s.gets.monitor.Keys)
  {
    CheckGets(Compared(s, plan, existOrder), getOrder, s.gets.lastTime, s.gets.monitor)
  }

  // ---------- runs ----------

  datatype Event = Others(acts: seq<Act>) | Poll(plan: seq<seq<Act>>, existOrder: seq<string>, getOrder: seq<string>)

  predicate CanHappen(s: State, e: Event) {
    e.Poll? ==>
      KeysOk(s) && IsOrder(e.existOrder, s.exist.monitor.Keys) && IsOrder(e.getOrder, s.gets.monitor.Keys)
  }

  function Happened(s: State, e: Event): State
    requires CanHappen(s, e)
  {
    match e
    case Others(acts) => ActedAll(s, acts)
    case Poll(plan, existOrder, getOrder) => Polled(s, plan, existOrder, getOrder)
  }

  predicate IsRun(s: State, events: seq<Event>)
    decreases |events|
  {
    events == [] || (CanHappen(s, events[0]) && IsRun(Happened(s, events[0]), events[1..]))
  }

  function End(s: State, events: seq<Event>): State
    requires IsRun(s, events)
    decreases |events|
  {
    if events == [] then s else End(Happened(s, events[0]), events[1..])
  }

  /** A monitor without any watch. */
  function Start(disk: Disk): State {
    State(disk, Exists(map[], map[], map[], map[]), Gets(map[], map[], map[], map[], map[]), [], 0, [])
  }

  // ---------- the monitor ----------

  /** The object: its maps are changed in place, and the poll's loops become `Polled`. */
  class LocFile {
    var disk: Disk
    var lastExistedStatus: map<string, bool>
    var monitorExistPath: map<string, nat>
    var lastChangedTime: map<string, nat>
    var monitorGetPath: map<string, nat>
    var taskQueue: seq<Task>
    var next: nat
    var told: map<nat, seq<bool>>
    var delivered: map<nat, Delivered>
    var calls: map<nat, nat>
    var plan: seq<seq<Act>>
    ghost var existBook: map<nat, ExistReg>
    ghost var getBook: map<nat, GetReg>

    ghost function Model(): State
      reads this
    {
      State(disk, Exists(lastExistedStatus, monitorExistPath, told, existBook),
            Gets(lastChangedTime, monitorGetPath, delivered, calls, getBook), taskQueue, next, plan)
    }

    constructor (disk: Disk)
      ensures Model() == Start(disk)
    {
      this.disk := disk;
      lastExistedStatus, monitorExistPath, lastChangedTime, monitorGetPath := map[], map[], map[], map[];
      taskQueue, next, told, delivered, calls, plan := [], 0, map[], map[], map[], [];
      existBook, getBook := map[], map[];
    }

    /** add_task; callbacks are numbered in the order of their registration. */
    method AddTask(task: Task)
      modifies this`taskQueue, this`next
      ensures taskQueue == old(taskQueue) + [task] && next == old(next) + 1
    {
      taskQueue, next := taskQueue + [task], next + 1;
    }

    /** exists_path. */
    method ExistsPath(path: string)
      modifies this
      ensures Model() == Acted(old(Model()), WatchStatus(path))
    {
      var existed := path in disk.files;
      Emplace(path, existed);
      AddTask(ExistTask(next, existed));
    }

    /** An entry that is already there stays. */
    method Emplace(path: string, existed: bool)
      modifies this`monitorExistPath, this`lastExistedStatus, this`existBook
      ensures Model().exist == AddExists(old(Model()).exist, path, existed, next)
    {
      existBook := existBook[next := ExistReg(path, existed, path !in monitorExistPath)];
      if path !in monitorExistPath {
        monitorExistPath, lastExistedStatus := monitorExistPath[path := next], lastExistedStatus[path := existed];
      }
    }

    /** get_path_value. */
    method GetPathValue(path: string)
      modifies this
      ensures Model() == Acted(old(Model()), WatchValue(path))
    {
      getBook := getBook[next := GetReg(path, Content(disk, path), path !in monitorGetPath)];
      if path !in disk.files {
        AddTask(GetTask(next, Gone));
        return;
      }
      var file := disk.files[path];
      if path !in monitorGetPath {
        monitorGetPath, lastChangedTime := monitorGetPath[path := next], lastChangedTime[path := file.mtime];
      }
      AddTask(GetTask(next, Value(file.content)));
    }

    /** What the plan says of this point. */
    method Interleave()
      modifies this
      ensures Model() == Interleaved(old(Model()))
    {
      if plan == [] {
        return;
      }
      var acts := plan[0];
      plan := plan[1..];
      ghost var s := Model();
      for i := 0 to |acts|
        invariant ActedAll(Model(), acts[i..]) == ActedAll(s, acts)
      {
        assert acts[i..][0] == acts[i] && acts[i..][1..] == acts[i + 1..];
        match acts[i] {
          case Write(after) => if Evolves(disk, after) { disk := after; }
          case WatchStatus(path) => ExistsPath(path);
          case WatchValue(path) => GetPathValue(path);
        }
      }
    }

    method DealTasks(tasks: seq<Task>)
      modifies this
      ensures Model() == RunTasks(old(Model()), tasks)
    {
      for i := 0 to |tasks|
        invariant RunTasks(Model(), tasks[i..]) == RunTasks(old(Model()), tasks)
      {
        assert tasks[i..][0] == tasks[i] && tasks[i..][1..] == tasks[i + 1..];
        Interleave();
        match tasks[i] {
          case ExistTask(callback, existed) => told := told[callback := [existed]];
          case GetTask(callback, value) => Call(callback, value);
        }
      }
    }

    /** Calls a content callback. */
    method Call(callback: nat, value: Delivered)
      modifies this`delivered, this`calls
      ensures Model().gets == Deliver(old(Model()).gets, callback, value)
    {
      delivered := delivered[callback := value];
      calls := calls[callback := (if callback in calls then calls[callback] else 0) + 1];
    }

    /** Calls an existence callback. */
    method Tell(callback: nat, status: bool)
      modifies this`told
      ensures told == old(told)[callback := (if callback in old(told) then old(told)[callback] else []) + [status]]
    {
      told := told[callback := (if callback in told then told[callback] else []) + [status]];
    }

    method HandleMonitorExist(order: seq<string>, last: map<string, bool>, monitor: map<string, nat>)
      requires forall p :: p in order ==> p in last && p in monitor
      modifies this
      ensures Model() == CheckExists(old(Model()), order, last, monitor)
    {
      for i := 0 to |order|
        invariant CheckExists(Model(), order[i..], last, monitor) == CheckExists(old(Model()), order, last, monitor)
      {
        assert order[i..][0] == order[i] && order[i..][1..] == order[i + 1..];
        CompareStatus(order[i], last[order[i]], monitor[order[i]]);
      }
    }

    /** One path of handle_monitor_exist. */
    method CompareStatus(path: string, lastStatus: bool, callback: nat)
      modifies this
      ensures Model() == CheckExist(old(Model()), path, lastStatus, callback)
    {
      var thisStatus := path in disk.files;
      Interleave();
      if lastStatus == thisStatus {
        return;
      }
      lastExistedStatus := lastExistedStatus[path := thisStatus];
      Tell(callback, thisStatus);
    }

    /** The second half of a check: the content is read and the callback told. */
    method ReadAndTell(path: string, callback: nat, thisTimestamp: nat)
      modifies this
      ensures Model() == Reread(old(Model()), path, callback, thisTimestamp)
    {
      var value := Content(disk, path);
      Interleave();
      Call(callback, value);
      if value == Gone {
        lastChangedTime := lastChangedTime - {path};
        monitorGetPath := monitorGetPath - {path};
      } else {
        lastChangedTime := lastChangedTime[path := thisTimestamp];
      }
    }

    method HandleMonitorGet(order: seq<string>, times: map<string, nat>, monitor: map<string, nat>)
      requires forall p :: p in order ==> p in times && p in monitor
      modifies this
      ensures Model() == CheckGets(old(Model()), order, times, monitor)
    {
      for i := 0 to |order|
        invariant CheckGets(Model(), order[i..], times, monitor) == CheckGets(old(Model()), order, times, monitor)
      {
        var path := order[i];
        assert order[i..][0] == path && order[i..][1..] == order[i + 1..];
        var thisTimestamp := ModifyTime(disk, path);
        Interleave();
        if times[path] == thisTimestamp {
          continue;
        }
        ReadAndTell(path, monitor[path], thisTimestamp);
      }
    }

    /** The body of the poll loop; `others` is what happens at its points. */
    method PollOnce(others: seq<seq<Act>>, existOrder: seq<string>, getOrder: seq<string>)
      requires KeysOk(Model())
      requires IsOrder(existOrder, monitorExistPath.Keys) && IsOrder(getOrder, monitorGetPath.Keys)
      modifies this
      ensures Model() == Polled(old(Model()), others, existOrder, getOrder)
    {
      plan := others;
      var tasks := taskQueue;
      taskQueue := [];
      var lastStatus, monitorExist := lastExistedStatus, monitorExistPath;
      var times, monitorGet := lastChangedTime, monitorGetPath;
      assert forall p :: p in existOrder ==> p in Elements(existOrder);
      assert forall p :: p in getOrder ==> p in Elements(getOrder);
      DealTasks(tasks);
      HandleMonitorExist(existOrder, lastStatus, monitorExist);
      HandleMonitorGet(getOrder, times, monitorGet);
    }
  }
}
