/** What every run of the local file monitor keeps. */
module LocalFileKeeps {
  import opened Seqs
  import opened LocalFile

  // ---------- the invariant ----------

  /** Each callback has at most one queued task. */
  predicate QueueOk(queue: seq<Task>, next: nat) {
    && (forall t :: t in queue ==> t.callback < next)
    && forall i, j :: 0 <= i < j < |queue| ==> queue[i].callback != queue[j].callback
  }

  /** The callback is the one the path is watched for. */
  predicate WatchesStatus(x: Exists, c: nat) {
    c in x.book && x.book[c].path in x.monitor && x.monitor[x.book[c].path] == c
  }

  predicate WatchesValue(g: Gets, c: nat) {
    c in g.book && g.book[c].path in g.monitor && g.monitor[g.book[c].path] == c
  }

  predicate ToldGone(g: Gets, c: nat) { c in g.delivered && g.delivered[c] == Gone }

  /** Created and deleted alternate, starting from the registered status. */
  predicate Alternate(statuses: seq<bool>, registered: bool) {
    && statuses != [] && statuses[0] == registered
    && forall i, j :: 0 <= i < |statuses| && 0 <= j < |statuses| && j == i + 1 ==> statuses[i] != statuses[j]
  }

  function Last(statuses: seq<bool>): bool
    requires statuses != []
  {
    statuses[|statuses| - 1]
  }

  /** One registered existence callback: watching exactly if its path was free, told what it was
      registered with and then, only if watching, every change. */
  predicate ExistRegOk(x: Exists, queue: seq<Task>, c: nat)
    requires c in x.book
  {
    var r := x.book[c];
    && (WatchesStatus(x, c) <==> r.free)
    && (c !in x.told ==> ExistTask(c, r.existed) in queue)
    && (c in x.told ==> Alternate(x.told[c], r.existed) && (!r.free ==> |x.told[c]| == 1))
  }

  /** The status on record is the last one told, or the one still queued. */
  predicate StatusOk(x: Exists, path: string)
    requires path in x.monitor && x.monitor[path] in x.book && path in x.lastStatus
  {
    var c := x.monitor[path];
    if c in x.told then x.told[c] != [] && Last(x.told[c]) == x.lastStatus[path]
    else x.book[c].existed == x.lastStatus[path]
  }

  predicate ExistTasksOk(x: Exists, queue: seq<Task>) {
    forall t :: t in queue && t.ExistTask? ==>
      t.callback in x.book && t.existed == x.book[t.callback].existed && t.callback !in x.told
  }

  predicate ExistRegsOk(x: Exists, next: nat, queue: seq<Task>) {
    && (forall c :: c in x.book ==> c < next && ExistRegOk(x, queue, c))
    && (forall c :: c in x.told ==> c in x.book)
  }

  predicate ExistPathsOk(x: Exists) {
    && x.lastStatus.Keys == x.monitor.Keys
    && (forall p :: p in x.monitor ==> x.monitor[p] in x.book && x.book[x.monitor[p]].path == p && StatusOk(x, p))
  }

  predicate ExistsOk(x: Exists, next: nat, queue: seq<Task>) {
    ExistRegsOk(x, next, queue) && ExistPathsOk(x) && ExistTasksOk(x, queue)
  }

  /** One registered content callback: watching exactly if it was registered with a value on a free
      path and has not been told that the file is gone; if it never watched, told only the value it
      was registered with. */
  predicate GetRegOk(g: Gets, queue: seq<Task>, c: nat)
    requires c in g.book
  {
    var r := g.book[c];
    && (WatchesValue(g, c) <==> r.value.Value? && r.free && !ToldGone(g, c))
    && (c !in g.delivered ==> GetTask(c, r.value) in queue)
    && (c in g.delivered && !(r.value.Value? && r.free) ==> g.delivered[c] == r.value)
  }

  predicate GetTasksOk(g: Gets, queue: seq<Task>) {
    forall t :: t in queue && t.GetTask? ==>
      t.callback in g.book && t.value == g.book[t.callback].value && t.callback !in g.delivered
  }

  predicate GetRegsOk(g: Gets, next: nat, queue: seq<Task>) {
    && (forall c :: c in g.book ==> c < next && GetRegOk(g, queue, c))
    && (forall c :: c in g.delivered ==> c in g.book) && (forall c :: c in g.calls ==> c in g.book)
  }

  predicate GetPathsOk(g: Gets) {
    forall p :: p in g.monitor ==> g.monitor[p] in g.book && g.book[g.monitor[p]].path == p
  }

  predicate GetBookOk(g: Gets, next: nat, queue: seq<Task>) {
    GetRegsOk(g, next, queue) && GetPathsOk(g) && GetTasksOk(g, queue)
  }

  /** The callback has been told the value, or was registered with it. */
  predicate Told(g: Gets, c: nat, v: Delivered) {
    if c in g.delivered then g.delivered[c] == v else c in g.book && g.book[c].value == v
  }

  /** A watched file that still has the recorded time has been reported with its content. */
  predicate ReportsOk(d: Disk, g: Gets) {
    && g.lastTime.Keys == g.monitor.Keys
    && (forall p :: p in g.lastTime ==> g.lastTime[p] <= d.clock)
    && forall p :: p in g.monitor && p in d.files && d.files[p].mtime == g.lastTime[p] ==>
         Told(g, g.monitor[p], Content(d, p))
  }

  /** `running` are the tasks the poll has taken out of the queue and not yet run. */
  predicate Ok(s: State, running: seq<Task>) {
    var queue := running + s.queue;
    && DiskOk(s.disk) && QueueOk(queue, s.next)
    && ExistsOk(s.exist, s.next, queue) && GetBookOk(s.gets, s.next, queue) && ReportsOk(s.disk, s.gets)
  }

  // ---------- acts of others ----------

  lemma EvolveKeeps(d: Disk, e: Disk, g: Gets)
    requires ReportsOk(d, g) && Evolves(d, e)
    ensures ReportsOk(e, g)
  {}

  lemma QueueMore(queue: seq<Task>, next: nat, t: Task)
    requires QueueOk(queue, next) && t.callback == next
    ensures QueueOk(queue + [t], next + 1)
  {}

  lemma AddExistsKeeps(x: Exists, next: nat, queue: seq<Task>, path: string, existed: bool)
    requires ExistsOk(x, next, queue)
    ensures ExistsOk(AddExists(x, path, existed, next), next + 1, queue + [ExistTask(next, existed)])
  {
    AddExistsRegs(x, next, queue, path, existed);
    AddExistsPaths(x, next, path, existed);
    AddExistsTasks(x, next, queue, path, existed);
  }

  lemma AddExistsTasks(x: Exists, next: nat, queue: seq<Task>, path: string, existed: bool)
    requires ExistTasksOk(x, queue) && next !in x.book && next !in x.told
    ensures ExistTasksOk(AddExists(x, path, existed, next), queue + [ExistTask(next, existed)])
  {}

  lemma AddExistsRegs(x: Exists, next: nat, queue: seq<Task>, path: string, existed: bool)
    requires ExistRegsOk(x, next, queue)
    requires forall p :: p in x.monitor ==> x.monitor[p] in x.book
    ensures ExistRegsOk(AddExists(x, path, existed, next), next + 1, queue + [ExistTask(next, existed)])
  {
    var q := queue + [ExistTask(next, existed)];
    var y := AddExists(x, path, existed, next);
    assert forall t :: t in queue ==> t in q;
    assert ExistTask(next, existed) in q;
    forall c | c in y.book ensures c < next + 1 && ExistRegOk(y, q, c) {
      if c != next { assert ExistRegOk(x, queue, c); }
    }
  }

  lemma AddExistsPaths(x: Exists, next: nat, path: string, existed: bool)
    requires ExistPathsOk(x) && next !in x.book && next !in x.told
    ensures ExistPathsOk(AddExists(x, path, existed, next))
  {
    var y := AddExists(x, path, existed, next);
    forall p | p in y.monitor ensures y.monitor[p] in y.book && y.book[y.monitor[p]].path == p && StatusOk(y, p) {
      if p in x.monitor { assert StatusOk(x, p); }
    }
  }

  lemma GetTaskLeavesExists(x: Exists, next: nat, queue: seq<Task>, t: Task)
    requires ExistsOk(x, next, queue) && t.GetTask?
    ensures ExistsOk(x, next + 1, queue + [t])
  {
    forall c | c in x.book ensures ExistRegOk(x, queue + [t], c) { assert ExistRegOk(x, queue, c); }
  }

  lemma AddGetKeeps(d: Disk, g: Gets, next: nat, queue: seq<Task>, path: string)
    requires GetBookOk(g, next, queue)
    ensures GetBookOk(AddGet(g, d, path, next), next + 1, queue + [GetTask(next, Content(d, path))])
  {
    AddGetRegs(d, g, next, queue, path);
  }

  lemma AddGetRegs(d: Disk, g: Gets, next: nat, queue: seq<Task>, path: string)
    requires GetRegsOk(g, next, queue) && GetPathsOk(g)
    ensures GetRegsOk(AddGet(g, d, path, next), next + 1, queue + [GetTask(next, Content(d, path))])
  {
    var task := GetTask(next, Content(d, path));
    var h, q := AddGet(g, d, path, next), queue + [task];
    forall c | c in h.book ensures c < next + 1 && GetRegOk(h, q, c) {
      if c != next { AddGetOthers(d, g, next, queue, path, c); } else { AddGetOwn(d, g, next, queue, path); }
    }
  }

  /** The new callback watches if it has found a file at a free path, and its task is queued. */
  lemma AddGetOwn(d: Disk, g: Gets, next: nat, queue: seq<Task>, path: string)
    requires GetRegsOk(g, next, queue) && GetPathsOk(g)
    ensures GetRegOk(AddGet(g, d, path, next), queue + [GetTask(next, Content(d, path))], next)
  {
    var q := queue + [GetTask(next, Content(d, path))];
    assert q[|queue|] == GetTask(next, Content(d, path));
  }

  /** A registration changes nothing for an earlier callback. */
  lemma AddGetOthers(d: Disk, g: Gets, next: nat, queue: seq<Task>, path: string, c: nat)
    requires GetRegsOk(g, next, queue) && c in g.book && c != next
    ensures GetRegOk(AddGet(g, d, path, next), queue + [GetTask(next, Content(d, path))], c)
  {
    assert GetRegOk(g, queue, c);
    assert forall t :: t in queue ==> t in queue + [GetTask(next, Content(d, path))];
  }

  lemma AddGetReports(d: Disk, g: Gets, next: nat, path: string)
    requires ReportsOk(d, g) && DiskOk(d) && next !in g.delivered && next !in g.book
    requires forall p :: p in g.monitor ==> g.monitor[p] in g.book
    ensures ReportsOk(d, AddGet(g, d, path, next))
  {
    var h := AddGet(g, d, path, next);
    forall p | p in h.monitor && p in d.files && d.files[p].mtime == h.lastTime[p]
      ensures Told(h, h.monitor[p], Content(d, p))
    {
      if p in g.monitor { assert Told(g, g.monitor[p], Content(d, p)); }
    }
  }

  lemma ExistTaskLeavesGets(g: Gets, next: nat, queue: seq<Task>, t: Task)
    requires GetBookOk(g, next, queue) && t.ExistTask?
    ensures GetBookOk(g, next + 1, queue + [t])
  {
    forall c | c in g.book ensures GetRegOk(g, queue + [t], c) { assert GetRegOk(g, queue, c); }
  }

  lemma ActKeeps(s: State, act: Act, running: seq<Task>)
    requires Ok(s, running)
    ensures Ok(Acted(s, act), running)
  {
    var queue := running + s.queue;
    match act
    case Write(after) => if Evolves(s.disk, after) { EvolveKeeps(s.disk, after, s.gets); }
    case WatchStatus(path) =>
      var t := ExistTask(s.next, path in s.disk.files);
      Associates(running, s.queue, [t]);
      QueueMore(queue, s.next, t);
      AddExistsKeeps(s.exist, s.next, queue, path, t.existed);
      ExistTaskLeavesGets(s.gets, s.next, queue, t);
    case WatchValue(path) =>
      var t := GetTask(s.next, Content(s.disk, path));
      Associates(running, s.queue, [t]);
      QueueMore(queue, s.next, t);
      GetTaskLeavesExists(s.exist, s.next, queue, t);
      AddGetKeeps(s.disk, s.gets, s.next, queue, path);
      AddGetReports(s.disk, s.gets, s.next, path);
  }

  lemma {:induction false} ActsKeep(s: State, acts: seq<Act>, running: seq<Task>)
    requires Ok(s, running)
    ensures Ok(ActedAll(s, acts), running)
    decreases |acts|
  {
    if acts != [] {
      ActKeeps(s, acts[0], running);
      ActsKeep(Acted(s, acts[0]), acts[1..], running);
    }
  }

  lemma InterleavedKeeps(s: State, running: seq<Task>)
    requires Ok(s, running)
    ensures Ok(Interleaved(s), running)
  {
    if s.plan != [] { ActsKeep(s.(plan := s.plan[1..]), s.plan[0], running); }
  }

  // ---------- the queued tasks ----------

  lemma QueueRest(queue: seq<Task>, next: nat)
    requires QueueOk(queue, next) && queue != []
    ensures QueueOk(queue[1..], next)
    ensures forall t :: t in queue[1..] ==> t in queue && t.callback != queue[0].callback
    ensures forall t :: t in queue ==> t == queue[0] || t in queue[1..]
  {}

  lemma RunExistTaskKeeps(x: Exists, next: nat, queue: seq<Task>)
    requires QueueOk(queue, next) && queue != [] && ExistsOk(x, next, queue)
    ensures var t := queue[0];
            ExistsOk(if t.ExistTask? then x.(told := x.told[t.callback := [t.existed]]) else x, next, queue[1..])
  {
    var t, q := queue[0], queue[1..];
    QueueRest(queue, next);
    assert t in queue;
    if t.ExistTask? {
      TellFirst(x, next, queue, q, t);
    } else {
      forall c | c in x.book ensures ExistRegOk(x, q, c) { assert ExistRegOk(x, queue, c); }
    }
  }

  lemma TellFirst(x: Exists, next: nat, queue: seq<Task>, q: seq<Task>, t: Task)
    requires ExistsOk(x, next, queue) && t.ExistTask? && t in queue
    requires forall u :: u in q ==> u in queue && u.callback != t.callback
    requires forall u :: u in queue ==> u == t || u in q
    ensures ExistsOk(x.(told := x.told[t.callback := [t.existed]]), next, q)
  {
    var y := x.(told := x.told[t.callback := [t.existed]]);
    forall c | c in y.book ensures ExistRegOk(y, q, c) {
      assert ExistRegOk(x, queue, c);
      assert c == t.callback ==> Alternate(y.told[c], y.book[c].existed);
    }
    forall p | p in y.monitor ensures StatusOk(y, p) { assert StatusOk(x, p); }
  }

  lemma RunGetTaskKeeps(g: Gets, next: nat, queue: seq<Task>)
    requires QueueOk(queue, next) && queue != [] && GetBookOk(g, next, queue)
    ensures var t := queue[0];
            GetBookOk(if t.GetTask? then Deliver(g, t.callback, t.value) else g, next, queue[1..])
  {
    var t, q := queue[0], queue[1..];
    QueueRest(queue, next);
    assert t in queue;
    if t.GetTask? {
      DeliverFirst(g, next, queue, q, t);
    } else {
      forall c | c in g.book ensures GetRegOk(g, q, c) { assert GetRegOk(g, queue, c); }
    }
  }

  lemma DeliverFirst(g: Gets, next: nat, queue: seq<Task>, q: seq<Task>, t: Task)
    requires GetBookOk(g, next, queue) && t.GetTask? && t in queue
    requires forall u :: u in q ==> u in queue && u.callback != t.callback
    requires forall u :: u in queue ==> u == t || u in q
    ensures GetBookOk(Deliver(g, t.callback, t.value), next, q)
  {
    var h := Deliver(g, t.callback, t.value);
    forall c | c in h.book ensures GetRegOk(h, q, c) { assert GetRegOk(g, queue, c); }
  }

  lemma RunGetTaskReports(d: Disk, g: Gets, c: nat, v: Delivered)
    requires ReportsOk(d, g) && c in g.book && g.book[c].value == v && c !in g.delivered
    ensures ReportsOk(d, Deliver(g, c, v))
  {
    var h := Deliver(g, c, v);
    forall p | p in h.monitor && p in d.files && d.files[p].mtime == h.lastTime[p]
      ensures Told(h, h.monitor[p], Content(d, p))
    {
      assert Told(g, g.monitor[p], Content(d, p));
    }
  }

  lemma RunTaskKeeps(s: State, tasks: seq<Task>)
    requires tasks != [] && Ok(s, tasks)
    ensures Ok(RunTask(s, tasks[0]), tasks[1..])
  {
    var queue := tasks + s.queue;
    assert queue[0] == tasks[0] && queue[1..] == tasks[1..] + s.queue;
    QueueRest(queue, s.next);
    RunExistTaskKeeps(s.exist, s.next, queue);
    RunGetTaskKeeps(s.gets, s.next, queue);
    assert tasks[0] in queue;
    if tasks[0].GetTask? { RunGetTaskReports(s.disk, s.gets, tasks[0].callback, tasks[0].value); }
  }

  lemma {:induction false} RunTasksKeep(s: State, tasks: seq<Task>)
    requires Ok(s, tasks)
    ensures Ok(RunTasks(s, tasks), [])
    decreases |tasks|
  {
    if tasks != [] {
      InterleavedKeeps(s, tasks);
      RunTaskKeeps(Interleaved(s), tasks);
      RunTasksKeep(RunTask(Interleaved(s), tasks[0]), tasks[1..]);
    }
  }

  // ---------- what stays while others act ----------

  /** Every queued task is of a callback registered since. */
  predicate NewTasks(queue: seq<Task>, limit: nat) { forall t :: t in queue ==> t.callback >= limit }

  predicate ExistsGrow(x: Exists, y: Exists, limit: nat) {
    && y.told == x.told
    && (forall p :: p in x.monitor ==> p in y.monitor && y.monitor[p] == x.monitor[p])
    && (forall p :: p in x.lastStatus ==> p in y.lastStatus && y.lastStatus[p] == x.lastStatus[p])
    && (forall p :: p in y.monitor && p !in x.monitor ==> y.monitor[p] >= limit)
    && (forall c :: c in x.book ==> c in y.book && y.book[c] == x.book[c])
  }

  predicate GetsGrow(g: Gets, h: Gets, limit: nat) {
    && h.delivered == g.delivered && h.calls == g.calls
    && (forall p :: p in g.monitor ==> p in h.monitor && h.monitor[p] == g.monitor[p])
    && (forall p :: p in g.lastTime ==> p in h.lastTime && h.lastTime[p] == g.lastTime[p])
    && (forall p :: p in h.monitor && p !in g.monitor ==> h.monitor[p] >= limit)
    && (forall c :: c in g.book ==> c in h.book && h.book[c] == g.book[c])
  }

  predicate BooksBelow(s: State) {
    && KeysOk(s)
    && (forall c :: c in s.exist.book ==> c < s.next)
    && (forall c :: c in s.gets.book ==> c < s.next)
  }

  /** Callbacks are only added, and nobody is told anything. */
  predicate Grows(s: State, t: State, limit: nat) {
    && s.next <= t.next && Evolves(s.disk, t.disk)
    && ExistsGrow(s.exist, t.exist, limit) && GetsGrow(s.gets, t.gets, limit)
    && (NewTasks(s.queue, limit) ==> NewTasks(t.queue, limit))
  }

  lemma ActGrows(s: State, act: Act, limit: nat)
    requires DiskOk(s.disk) && BooksBelow(s) && limit <= s.next
    ensures Grows(s, Acted(s, act), limit) && BooksBelow(Acted(s, act))
  {
    match act
    case Write(_) =>
    case WatchStatus(path) => WatchStatusGrows(s, path, limit);
    case WatchValue(path) => WatchValueGrows(s, path, limit);
  }

  lemma WatchStatusGrows(s: State, path: string, limit: nat)
    requires DiskOk(s.disk) && BooksBelow(s) && limit <= s.next
    ensures var t := Acted(s, WatchStatus(path)); Grows(s, t, limit) && BooksBelow(t)
  {
    AddExistsGrows(s.exist, path, path in s.disk.files, s.next, limit);
  }

  lemma WatchValueGrows(s: State, path: string, limit: nat)
    requires DiskOk(s.disk) && BooksBelow(s) && limit <= s.next
    ensures var t := Acted(s, WatchValue(path)); Grows(s, t, limit) && BooksBelow(t)
  {
    AddGetGrows(s.gets, s.disk, path, s.next, limit);
  }

  lemma AddExistsGrows(x: Exists, path: string, existed: bool, next: nat, limit: nat)
    requires x.lastStatus.Keys == x.monitor.Keys && limit <= next && next !in x.book
    ensures var y := AddExists(x, path, existed, next);
            ExistsGrow(x, y, limit) && y.lastStatus.Keys == y.monitor.Keys
  {}

  lemma AddGetGrows(g: Gets, d: Disk, path: string, next: nat, limit: nat)
    requires g.lastTime.Keys == g.monitor.Keys && limit <= next && next !in g.book
    ensures var h := AddGet(g, d, path, next); GetsGrow(g, h, limit) && h.lastTime.Keys == h.monitor.Keys
  {}

  lemma GrowsTransitive(s: State, t: State, u: State, limit: nat)
    requires Grows(s, t, limit) && Grows(t, u, limit)
    ensures Grows(s, u, limit)
  {}

  lemma {:induction false} ActsGrow(s: State, acts: seq<Act>, limit: nat)
    requires DiskOk(s.disk) && BooksBelow(s) && limit <= s.next
    ensures Grows(s, ActedAll(s, acts), limit) && BooksBelow(ActedAll(s, acts))
    decreases |acts|
  {
    if acts != [] {
      var t := Acted(s, acts[0]);
      ActGrows(s, acts[0], limit);
      ActsGrow(t, acts[1..], limit);
      GrowsTransitive(s, t, ActedAll(t, acts[1..]), limit);
    }
  }

  lemma InterleavedGrows(s: State, limit: nat)
    requires DiskOk(s.disk) && BooksBelow(s) && limit <= s.next
    ensures Grows(s, Interleaved(s), limit) && BooksBelow(Interleaved(s))
  {
    if s.plan != [] { ActsGrow(s.(plan := s.plan[1..]), s.plan[0], limit); }
  }

  // ---------- one check ----------

  /** A status that differs from the one on record is recorded and told. */
  lemma FlipKeeps(x: Exists, next: nat, queue: seq<Task>, path: string, c: nat, status: bool)
    requires ExistsOk(x, next, queue) && path in x.monitor && x.monitor[path] == c
    requires x.lastStatus[path] != status && (forall t :: t in queue ==> t.callback != c)
    ensures ExistsOk(Flip(x, path, c, status), next, queue)
  {
    assert StatusOk(x, path) && ExistRegOk(x, queue, c);
    assert c in x.told;
    FlipRegs(x, next, queue, path, c, status);
    FlipPaths(x, path, c, status);
  }

  lemma FlipRegs(x: Exists, next: nat, queue: seq<Task>, path: string, c: nat, status: bool)
    requires ExistRegsOk(x, next, queue) && c in x.told && x.told[c] != [] && Last(x.told[c]) != status
    requires WatchesStatus(x, c)
    ensures ExistRegsOk(Flip(x, path, c, status), next, queue)
  {
    var y := Flip(x, path, c, status);
    assert ExistRegOk(x, queue, c);
    AlternateMore(x.told[c], x.book[c].existed, status);
    forall b | b in y.book ensures ExistRegOk(y, queue, b) { assert ExistRegOk(x, queue, b); }
  }

  lemma FlipPaths(x: Exists, path: string, c: nat, status: bool)
    requires ExistPathsOk(x) && path in x.monitor && x.monitor[path] == c && c in x.told
    ensures ExistPathsOk(Flip(x, path, c, status))
  {
    var y := Flip(x, path, c, status);
    forall p | p in y.monitor ensures StatusOk(y, p) { assert StatusOk(x, p); }
  }

  lemma AlternateMore(statuses: seq<bool>, registered: bool, status: bool)
    requires Alternate(statuses, registered) && Last(statuses) != status
    ensures Alternate(statuses + [status], registered) && Last(statuses + [status]) == status
  {}

  /** The content read after the time is told and the time recorded. */
  lemma ReportKeeps(g: Gets, next: nat, queue: seq<Task>, path: string, c: nat, time: nat, v: Delivered)
    requires GetBookOk(g, next, queue) && path in g.monitor && g.monitor[path] == c && v.Value?
    requires forall t :: t in queue ==> t.callback != c
    ensures GetBookOk(Report(g, path, c, time, v), next, queue)
  {
    var h := Report(g, path, c, time, v);
    assert GetRegOk(g, queue, c) && WatchesValue(g, c);
    forall b | b in h.book ensures GetRegOk(h, queue, b) { assert GetRegOk(g, queue, b); }
  }

  /** The time was read at `d0`, the content at `d1`. */
  lemma ReportReports(d0: Disk, d1: Disk, d: Disk, g: Gets, path: string, c: nat)
    requires ReportsOk(d, g) && path in g.monitor && g.monitor[path] == c && path in d1.files
    requires DiskOk(d0) && Evolves(d0, d1) && Evolves(d1, d)
    requires forall p, q :: p in g.monitor && q in g.monitor && g.monitor[p] == g.monitor[q] ==> p == q
    ensures ReportsOk(d, Report(g, path, c, ModifyTime(d0, path), Content(d1, path)))
  {
    var h := Report(g, path, c, ModifyTime(d0, path), Content(d1, path));
    forall p | p in h.monitor && p in d.files && d.files[p].mtime == h.lastTime[p]
      ensures Told(h, h.monitor[p], Content(d, p))
    {
      if p != path {
        assert Told(g, g.monitor[p], Content(d, p));
      } else {
        assert 0 < d.files[path].mtime <= d0.clock;
      }
    }
  }

  lemma ForgetKeeps(g: Gets, next: nat, queue: seq<Task>, path: string, c: nat)
    requires GetBookOk(g, next, queue) && path in g.monitor && g.monitor[path] == c
    requires forall t :: t in queue ==> t.callback != c
    ensures GetBookOk(Forget(g, path, c), next, queue)
  {
    var h := Forget(g, path, c);
    assert GetRegOk(g, queue, c) && WatchesValue(g, c);
    forall b | b in h.book ensures GetRegOk(h, queue, b) { assert GetRegOk(g, queue, b); }
  }

  lemma ForgetReports(d: Disk, g: Gets, path: string, c: nat)
    requires ReportsOk(d, g) && path in g.monitor && g.monitor[path] == c
    requires forall p, q :: p in g.monitor && q in g.monitor && g.monitor[p] == g.monitor[q] ==> p == q
    ensures ReportsOk(d, Forget(g, path, c))
  {
    var h := Forget(g, path, c);
    forall p | p in h.monitor && p in d.files && d.files[p].mtime == h.lastTime[p]
      ensures Told(h, h.monitor[p], Content(d, p))
    {
      assert Told(g, g.monitor[p], Content(d, p));
    }
  }

  // ---------- the snapshot ----------

  /** The paths still to be checked are as in the snapshot, watched for callbacks older than `limit`. */
  predicate ExistWaiting(x: Exists, todo: seq<string>, last: map<string, bool>, monitor: map<string, nat>, limit: nat) {
    && x.lastStatus.Keys == x.monitor.Keys
    && forall p :: p in todo ==>
         p in last && p in monitor && p in x.monitor && x.monitor[p] == monitor[p] < limit && x.lastStatus[p] == last[p]
  }

  predicate GetWaiting(g: Gets, todo: seq<string>, times: map<string, nat>, monitor: map<string, nat>, limit: nat) {
    && g.lastTime.Keys == g.monitor.Keys
    && forall p :: p in todo ==>
         p in times && p in monitor && p in g.monitor && g.monitor[p] == monitor[p] < limit && g.lastTime[p] == times[p]
  }

  /** Between the tasks and the end of a poll: older callbacks have no task queued. */
  predicate Checking(s: State, limit: nat) {
    Ok(s, []) && limit <= s.next && NewTasks(s.queue, limit)
  }

  lemma OkBooks(s: State, running: seq<Task>)
    requires Ok(s, running)
    ensures BooksBelow(s) && KeysOk(s)
    ensures forall p, q ::
              p in s.gets.monitor && q in s.gets.monitor && s.gets.monitor[p] == s.gets.monitor[q] ==> p == q
    ensures forall p, q ::
              p in s.exist.monitor && q in s.exist.monitor && s.exist.monitor[p] == s.exist.monitor[q] ==> p == q
  {}

  lemma InterleavedChecking(s: State, limit: nat)
    requires Checking(s, limit)
    ensures Checking(Interleaved(s), limit) && Grows(s, Interleaved(s), limit)
  {
    OkBooks(s, []);
    InterleavedKeeps(s, []);
    InterleavedGrows(s, limit);
  }

  lemma CheckExistKeeps(s: State, path: string, last: bool, c: nat, limit: nat)
    requires Checking(s, limit) && path in s.exist.monitor && s.exist.monitor[path] == c < limit
    requires s.exist.lastStatus[path] == last
    ensures Checking(CheckExist(s, path, last, c), limit)
  {
    var t := Interleaved(s);
    InterleavedChecking(s, limit);
    assert [] + t.queue == t.queue;
    if last != (path in s.disk.files) {
      FlipKeeps(t.exist, t.next, t.queue, path, c, path in s.disk.files);
    }
  }

  /** A check of one path leaves the records of the others alone. */
  predicate ExistOthers(x: Exists, y: Exists, path: string) {
    && y.lastStatus.Keys == y.monitor.Keys
    && (forall p :: p in x.monitor ==> p in y.monitor && y.monitor[p] == x.monitor[p])
    && (forall p :: p in x.lastStatus && p != path ==> p in y.lastStatus && y.lastStatus[p] == x.lastStatus[p])
  }

  lemma CheckExistOthers(s: State, path: string, last: bool, c: nat, limit: nat)
    requires Checking(s, limit) && path in s.exist.monitor && s.exist.monitor[path] == c < limit
    ensures var t := CheckExist(s, path, last, c);
            ExistOthers(s.exist, t.exist, path) && GetsGrow(s.gets, t.gets, limit)
  {
    InterleavedChecking(s, limit);
    FlipOthers(s.exist, Interleaved(s).exist, path, c, path in s.disk.files, limit);
  }

  lemma FlipOthers(x: Exists, y: Exists, path: string, c: nat, status: bool, limit: nat)
    requires y.lastStatus.Keys == y.monitor.Keys && ExistsGrow(x, y, limit) && path in y.monitor
    ensures ExistOthers(x, y, path) && ExistOthers(x, Flip(y, path, c, status), path)
  {}

  lemma ExistStillWaiting(x: Exists, y: Exists, order: seq<string>, last: map<string, bool>,
                          monitor: map<string, nat>, limit: nat)
    requires order != [] && Distinct(order) && ExistWaiting(x, order, last, monitor, limit)
    requires ExistOthers(x, y, order[0])
    ensures Distinct(order[1..]) && ExistWaiting(y, order[1..], last, monitor, limit)
  {
    assert forall p :: p in order[1..] ==> p in order && p != order[0];
  }

  lemma GetsGrowTransitive(g: Gets, h: Gets, k: Gets, limit: nat)
    requires GetsGrow(g, h, limit) && GetsGrow(h, k, limit)
    ensures GetsGrow(g, k, limit)
  {}

  lemma {:induction false} CheckExistsKeep(s: State, order: seq<string>, last: map<string, bool>,
                                           monitor: map<string, nat>, limit: nat)
    requires Checking(s, limit) && Distinct(order) && ExistWaiting(s.exist, order, last, monitor, limit)
    ensures Checking(CheckExists(s, order, last, monitor), limit)
    ensures GetsGrow(s.gets, CheckExists(s, order, last, monitor).gets, limit)
    decreases |order|
  {
    if order != [] {
      var p := order[0];
      var t := CheckExist(s, p, last[p], monitor[p]);
      CheckExistKeeps(s, p, last[p], monitor[p], limit);
      CheckExistOthers(s, p, last[p], monitor[p], limit);
      ExistStillWaiting(s.exist, t.exist, order, last, monitor, limit);
      CheckExistsKeep(t, order[1..], last, monitor, limit);
      GetsGrowTransitive(s.gets, t.gets, CheckExists(s, order, last, monitor).gets, limit);
    }
  }

  lemma RereadKeeps(d0: Disk, s: State, path: string, c: nat, limit: nat)
    requires Checking(s, limit) && path in s.gets.monitor && s.gets.monitor[path] == c < limit
    requires DiskOk(d0) && Evolves(d0, s.disk)
    ensures Checking(Reread(s, path, c, ModifyTime(d0, path)), limit)
  {
    StillWatched(s, path, limit);
    var t := Interleaved(s);
    assert Content(s.disk, path) == Gone <==> path !in s.disk.files;
    if path in s.disk.files {
      ReportChecking(d0, s.disk, t, path, c, limit);
    } else {
      ForgetChecking(t, path, c, limit);
    }
  }

  lemma StillWatched(s: State, path: string, limit: nat)
    requires Checking(s, limit) && path in s.gets.monitor
    ensures var t := Interleaved(s);
            && Checking(t, limit) && Evolves(s.disk, t.disk)
            && path in t.gets.monitor && t.gets.monitor[path] == s.gets.monitor[path]
  {
    InterleavedChecking(s, limit);
  }

  lemma ReportChecking(d0: Disk, d1: Disk, t: State, path: string, c: nat, limit: nat)
    requires Checking(t, limit) && path in t.gets.monitor && t.gets.monitor[path] == c < limit
    requires DiskOk(d0) && Evolves(d0, d1) && Evolves(d1, t.disk) && path in d1.files
    ensures Checking(t.(gets := Report(t.gets, path, c, ModifyTime(d0, path), Content(d1, path))), limit)
  {
    OkBooks(t, []);
    assert [] + t.queue == t.queue;
    ReportKeeps(t.gets, t.next, t.queue, path, c, ModifyTime(d0, path), Content(d1, path));
    ReportReports(d0, d1, t.disk, t.gets, path, c);
  }

  lemma ForgetChecking(t: State, path: string, c: nat, limit: nat)
    requires Checking(t, limit) && path in t.gets.monitor && t.gets.monitor[path] == c < limit
    ensures Checking(t.(gets := Forget(t.gets, path, c)), limit)
  {
    OkBooks(t, []);
    assert [] + t.queue == t.queue;
    ForgetKeeps(t.gets, t.next, t.queue, path, c);
    ForgetReports(t.disk, t.gets, path, c);
  }

  lemma CheckGetKeeps(s: State, path: string, last: nat, c: nat, limit: nat)
    requires Checking(s, limit) && path in s.gets.monitor && s.gets.monitor[path] == c < limit
    ensures Checking(CheckGet(s, path, last, c), limit)
  {
    InterleavedChecking(s, limit);
    if last != ModifyTime(s.disk, path) { RereadKeeps(s.disk, Interleaved(s), path, c, limit); }
  }

  predicate GetOthers(g: Gets, h: Gets, path: string) {
    && h.lastTime.Keys == h.monitor.Keys
    && (forall p :: p in g.monitor && p != path ==> p in h.monitor && h.monitor[p] == g.monitor[p])
    && (forall p :: p in g.lastTime && p != path ==> p in h.lastTime && h.lastTime[p] == g.lastTime[p])
  }

  lemma CheckGetOthers(s: State, path: string, last: nat, c: nat, limit: nat)
    requires Checking(s, limit) && path in s.gets.monitor && s.gets.monitor[path] == c < limit
    ensures GetOthers(s.gets, CheckGet(s, path, last, c).gets, path)
  {
    var t, time := Interleaved(s), ModifyTime(s.disk, path);
    InterleavedChecking(s, limit);
    if last != time {
      InterleavedChecking(t, limit);
      var u := Interleaved(t);
      ForgetOthers(u.gets, path, c);
      ReportOthers(u.gets, path, c, time, Content(t.disk, path));
      OthersGrow(t.gets, u.gets, Reread(t, path, c, time).gets, path, limit);
      OthersGrow(s.gets, t.gets, Reread(t, path, c, time).gets, path, limit);
    }
  }

  lemma ForgetOthers(g: Gets, path: string, c: nat)
    requires g.lastTime.Keys == g.monitor.Keys
    ensures GetOthers(g, Forget(g, path, c), path)
  {}

  lemma ReportOthers(g: Gets, path: string, c: nat, time: nat, v: Delivered)
    requires g.lastTime.Keys == g.monitor.Keys && path in g.monitor
    ensures GetOthers(g, Report(g, path, c, time, v), path)
  {}

  lemma OthersGrow(g: Gets, h: Gets, k: Gets, path: string, limit: nat)
    requires GetsGrow(g, h, limit) && GetOthers(h, k, path)
    ensures GetOthers(g, k, path)
  {}

  lemma GetStillWaiting(g: Gets, h: Gets, order: seq<string>, times: map<string, nat>,
                        monitor: map<string, nat>, limit: nat)
    requires order != [] && Distinct(order) && GetWaiting(g, order, times, monitor, limit)
    requires GetOthers(g, h, order[0])
    ensures Distinct(order[1..]) && GetWaiting(h, order[1..], times, monitor, limit)
  {
    assert forall p :: p in order[1..] ==> p in order && p != order[0];
  }

  lemma {:induction false} CheckGetsKeep(s: State, order: seq<string>, times: map<string, nat>,
                                         monitor: map<string, nat>, limit: nat)
    requires Checking(s, limit) && Distinct(order) && GetWaiting(s.gets, order, times, monitor, limit)
    ensures Checking(CheckGets(s, order, times, monitor), limit)
    decreases |order|
  {
    if order != [] {
      var p := order[0];
      var t := CheckGet(s, p, times[p], monitor[p]);
      CheckGetKeeps(s, p, times[p], monitor[p], limit);
      CheckGetOthers(s, p, times[p], monitor[p], limit);
      GetStillWaiting(s.gets, t.gets, order, times, monitor, limit);
      CheckGetsKeep(t, order[1..], times, monitor, limit);
    }
  }

  // ---------- one round ----------

  /** The maps the snapshot was taken of, apart from what has been told. */
  predicate SameWatches(s: State, t: State, limit: nat) {
    && ExistsGrow(s.exist.(told := map[]), t.exist.(told := map[]), limit)
    && GetsGrow(s.gets.(delivered := map[], calls := map[]), t.gets.(delivered := map[], calls := map[]), limit)
    && s.next <= t.next && (NewTasks(s.queue, limit) ==> NewTasks(t.queue, limit))
  }

  lemma WatchesGrow(s: State, t: State, u: State, limit: nat)
    requires Grows(s, t, limit) && SameWatches(t, u, limit)
    ensures SameWatches(s, u, limit)
  {}

  lemma {:induction false} RunTasksGrow(s: State, tasks: seq<Task>, limit: nat)
    requires Ok(s, tasks) && limit <= s.next
    ensures SameWatches(s, RunTasks(s, tasks), limit)
    decreases |tasks|
  {
    if tasks != [] {
      var t := Interleaved(s);
      OkBooks(s, tasks);
      InterleavedGrows(s, limit);
      InterleavedKeeps(s, tasks);
      RunTaskKeeps(t, tasks);
      RunTasksGrow(RunTask(t, tasks[0]), tasks[1..], limit);
      WatchesGrow(s, t, RunTasks(s, tasks), limit);
    }
  }

  /** The state after the tasks, ready for the checks. */
  lemma DealtIsChecking(s: State, plan: seq<seq<Act>>)
    requires Ok(s, [])
    ensures Checking(Dealt(s, plan), s.next) && SameWatches(s.(queue := []), Dealt(s, plan), s.next)
  {
    var s0 := s.(plan := plan, queue := []);
    assert [] + s.queue == s.queue == s.queue + [];
    RunTasksKeep(s0, s.queue);
    RunTasksGrow(s0, s.queue, s.next);
  }

  lemma OrderIs(order: seq<string>, keys: set<string>)
    requires IsOrder(order, keys)
    ensures forall p :: p in order <==> p in keys
  {
    assert forall p :: p in order <==> p in Elements(order);
  }

  /** The snapshot's entries are still there when the checks begin. */
  lemma SnapshotWaits(s: State, plan: seq<seq<Act>>, existOrder: seq<string>, getOrder: seq<string>)
    requires Ok(s, []) && CanHappen(s, Poll(plan, existOrder, getOrder))
    ensures ExistWaiting(Dealt(s, plan).exist, existOrder, s.exist.lastStatus, s.exist.monitor, s.next)
    ensures GetWaiting(Dealt(s, plan).gets, getOrder, s.gets.lastTime, s.gets.monitor, s.next)
  {
    DealtIsChecking(s, plan);
    OrderIs(existOrder, s.exist.monitor.Keys);
    OrderIs(getOrder, s.gets.monitor.Keys);
  }

  lemma WaitingGrows(g: Gets, h: Gets, order: seq<string>, times: map<string, nat>, monitor: map<string, nat>,
                     limit: nat)
    requires GetWaiting(g, order, times, monitor, limit) && GetsGrow(g, h, limit) && h.lastTime.Keys == h.monitor.Keys
    ensures GetWaiting(h, order, times, monitor, limit)
  {}

  /** The state after the statuses, ready for the contents. */
  lemma ComparedIsChecking(s: State, plan: seq<seq<Act>>, existOrder: seq<string>, getOrder: seq<string>)
    requires Ok(s, []) && CanHappen(s, Poll(plan, existOrder, getOrder))
    ensures var s2 := Compared(s, plan, existOrder);
            && Checking(s2, s.next) && GetsGrow(Dealt(s, plan).gets, s2.gets, s.next)
            && GetWaiting(s2.gets, getOrder, s.gets.lastTime, s.gets.monitor, s.next)
  {
    var s1, s2 := Dealt(s, plan), Compared(s, plan, existOrder);
    DealtIsChecking(s, plan);
    SnapshotWaits(s, plan, existOrder, getOrder);
    CheckExistsKeep(s1, existOrder, s.exist.lastStatus, s.exist.monitor, s.next);
    OkBooks(s2, []);
    WaitingGrows(s1.gets, s2.gets, getOrder, s.gets.lastTime, s.gets.monitor, s.next);
  }

  lemma PolledKeeps(s: State, plan: seq<seq<Act>>, existOrder: seq<string>, getOrder: seq<string>)
    requires Ok(s, []) && CanHappen(s, Poll(plan, existOrder, getOrder))
    ensures Ok(Polled(s, plan, existOrder, getOrder), [])
  {
    ComparedIsChecking(s, plan, existOrder, getOrder);
    OrderIs(getOrder, s.gets.monitor.Keys);
    CheckGetsKeep(Compared(s, plan, existOrder), getOrder, s.gets.lastTime, s.gets.monitor, s.next);
  }

  // ---------- runs ----------

  lemma StartOk(disk: Disk)
    requires DiskOk(disk)
    ensures Ok(Start(disk), [])
  {}

  lemma {:induction false} RunKeeps(s: State, events: seq<Event>)
    requires Ok(s, []) && IsRun(s, events)
    ensures Ok(End(s, events), [])
    decreases |events|
  {
    if events != [] {
      match events[0] {
        case Others(acts) => ActsKeep(s, acts, []);
        case Poll(plan, existOrder, getOrder) => PolledKeeps(s, plan, existOrder, getOrder);
      }
      RunKeeps(Happened(s, events[0]), events[1..]);
    }
  }
}
