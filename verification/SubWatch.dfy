/**
 * The `watch_sub_path` protocol as a step machine.
 *
 * One parent path is watched.  The server holds the parent, its children and the armed one-shot
 * watches; two FIFO wires carry requests to the server and replies and events to the client; the
 * client holds the context table, the cached child set and the log of user notifications.
 * `cause` on requests and replies records which event made the client send the request: no
 * handler reads it.
 */
module SubWatch {
  import opened Seqs
  import opened Zk

  type Name = string

  /** An entry of the context table: one per call of watch_path_event, async_get_sub_path<true>
      and async_get_path_value<true>. */
  datatype Ctx = ExistsCtx(eve: Event) | ListCtx | GetCtx(name: Name, eve: Event)

  /** What a watch is armed on: the parent's data, the parent's child list, one child's data. */
  datatype Target = OnParent | OnChildren | OnChild(name: Name)

  datatype Request =
    | AskExists(ctx: nat, cause: Event)
    | AskList(ctx: nat)
    | AskGet(ctx: nat, name: Name, cause: Event)

  datatype Msg =
    | ExistsReply(ctx: nat, ok: bool, cause: Event)
    | ListReply(ctx: nat, names: Option<seq<Name>>)
    | GetReply(ctx: nat, name: Name, data: Option<Data>, cause: Event)
    | Fire(ctx: nat, target: Target, event: Event)

  datatype Note = ChangedNote(name: Name, data: Data) | DelNote(name: Name)

  datatype Server = Server(parent: bool, children: map<Name, Data>, armed: map<nat, Target>)

  datatype Client = Client(next: nat, contexts: map<nat, Ctx>, cache: Option<set<Name>>, log: seq<Note>)

  datatype State = State(server: Server, requests: seq<Request>, inbox: seq<Msg>, client: Client)

  // ---------- client ----------

  /** The names of a listing that are not in the cached set, in listing order. */
  function Fresh(names: seq<Name>, known: set<Name>): seq<Name> {
    if names == [] then []
    else (if names[0] in known then [] else [names[0]]) + Fresh(names[1..], known)
  }

  function Known(cache: Option<set<Name>>): set<Name> {
    if cache.Some? then cache.value else {}
  }

  /** The contexts and requests opened for a sequence of names, numbered from `first`. */
  function NewContexts(first: nat, names: seq<Name>): (r: map<nat, Ctx>)
    ensures forall x: nat :: x in r <==> first <= x < first + |names|
    ensures forall x: nat :: x in r ==> r[x] == GetCtx(names[x - first], Dummy)
    decreases |names|
  {
    if names == [] then map[] else NewContexts(first + 1, names[1..])[first := GetCtx(names[0], Dummy)]
  }

  function NewRequests(first: nat, names: seq<Name>): seq<Request>
    decreases |names|
  {
    if names == [] then []
    else [AskGet(first, names[0], Dummy)] + NewRequests(first + 1, names[1..])
  }

  /** The completion of the listing: monitor what is new, then replace the cached set. */
  function HandleListing(c: Client, names: seq<Name>): (Client, seq<Request>) {
    var unseen := Fresh(names, Known(c.cache));
    (c.(next := c.next + |unseen|,
        contexts := c.contexts + NewContexts(c.next, unseen),
        cache := Some(Elements(names))),
     NewRequests(c.next, unseen))
  }

  /** The exists completion: list the children unless the parent is absent or the event was another one. */
  function HandleExists(c: Client, ok: bool, eve: Event): (Client, seq<Request>) {
    if !ok || (eve != Dummy && eve != Created) then (c, [])
    else (c.(next := c.next + 1, contexts := c.contexts[c.next := ListCtx]), [AskList(c.next)])
  }

  /** The get completion: `del` only for a failed read caused by a delete event. */
  function HandleGet(c: Client, name: Name, eve: Event, data: Option<Data>): Client {
    if data.None? && eve == Deleted then c.(log := c.log + [DelNote(name)])
    else if data.Some? then c.(log := c.log + [ChangedNote(name, data.value)])
    else c
  }

  /** A watch event: re-arm by asking again, except that a deleted child or listing drops its context. */
  function HandleFire(c: Client, x: nat, ctx: Ctx, event: Event): (Client, seq<Request>) {
    match ctx
    case ExistsCtx(_) => (c.(contexts := c.contexts[x := ExistsCtx(event)]), [AskExists(x, event)])
    case ListCtx =>
      if event == Deleted then (c.(contexts := c.contexts - {x}), []) else (c, [AskList(x)])
    case GetCtx(name, _) =>
      if event == Deleted then
        (c.(contexts := c.contexts - {x}, log := c.log + [DelNote(name)]), [])
      else
        (c.(contexts := c.contexts[x := GetCtx(name, event)]), [AskGet(x, name, event)])
  }

  /** The client's reaction to one message. A message for a context that is gone would be a
      dangling pointer in the original; here it is dropped, and `NoDangling` proves it never comes. */
  function Handle(c: Client, m: Msg): (Client, seq<Request>) {
    if m.ctx !in c.contexts then (c, [])
    else
      var ctx := c.contexts[m.ctx];
      match m
      case ExistsReply(_, ok, _) => if ctx.ExistsCtx? then HandleExists(c, ok, ctx.eve) else (c, [])
      case ListReply(_, names) =>
        if ctx.ListCtx? && names.Some? then HandleListing(c, names.value) else (c, [])
      case GetReply(_, _, data, _) =>
        if ctx.GetCtx? then (HandleGet(c, ctx.name, ctx.eve, data), []) else (c, [])
      case Fire(x, _, event) => HandleFire(c, x, ctx, event)
  }

  // ---------- server ----------

  /** `fired` lists, in some order, exactly the contexts armed on the target. */
  ghost predicate AllArmed(armed: map<nat, Target>, target: Target, fired: seq<nat>) {
    && Distinct(fired)
    && (forall x :: x in fired <==> x in armed && armed[x] == target)
  }

  /** Watches are one-shot: firing removes them. */
  function Disarm(armed: map<nat, Target>, target: Target): map<nat, Target> {
    map x | x in armed && armed[x] != target :: armed[x]
  }

  function Fires(fired: seq<nat>, target: Target, event: Event): seq<Msg> {
    if fired == [] then [] else [Fire(fired[0], target, event)] + Fires(fired[1..], target, event)
  }

  /** Server-side events on one target: the armed watches fire once and are queued. */
  function Trigger(s: State, target: Target, event: Event, fired: seq<nat>): State {
    s.(server := s.server.(armed := Disarm(s.server.armed, target)),
       inbox := s.inbox + Fires(fired, target, event))
  }

  /** Any order of the children's names. */
  predicate Lists(order: seq<Name>, children: map<Name, Data>) {
    && Distinct(order)
    && Elements(order) == children.Keys
  }

  /** The server's reply to one request and the watches after it. An exists watch is armed in any
      case, a get or child watch only when the read succeeds. */
  function Answer(sv: Server, r: Request, order: seq<Name>): (Msg, map<nat, Target>) {
    match r
    case AskExists(x, cause) => (ExistsReply(x, sv.parent, cause), sv.armed[x := OnParent])
    case AskList(x) =>
      if sv.parent then (ListReply(x, Some(order)), sv.armed[x := OnChildren])
      else (ListReply(x, None), sv.armed)
    case AskGet(x, name, cause) =>
      if name in sv.children then
        (GetReply(x, name, Some(sv.children[name]), cause), sv.armed[x := OnChild(name)])
      else (GetReply(x, name, None, cause), sv.armed)
  }

  // ---------- steps ----------

  datatype Step =
    | CreateParent(fired: seq<nat>)
    | SetParent(fired: seq<nat>)
    | CreateChild(name: Name, data: Data, listFired: seq<nat>)
    | SetChild(name: Name, data: Data, fired: seq<nat>)
    | DeleteChild(name: Name, fired: seq<nat>, listFired: seq<nat>)
    | Serve(order: seq<Name>)
    | Deliver

  ghost predicate Enabled(s: State, step: Step) {
    var sv := s.server;
    match step
    case CreateParent(fired) => !sv.parent && AllArmed(sv.armed, OnParent, fired)
    case SetParent(fired) => sv.parent && AllArmed(sv.armed, OnParent, fired)
    case CreateChild(name, _, listFired) =>
      sv.parent && name !in sv.children && AllArmed(sv.armed, OnChildren, listFired)
    case SetChild(name, _, fired) => name in sv.children && AllArmed(sv.armed, OnChild(name), fired)
    case DeleteChild(name, fired, listFired) =>
      && name in sv.children
      && AllArmed(sv.armed, OnChild(name), fired) && AllArmed(sv.armed, OnChildren, listFired)
    case Serve(order) => s.requests != [] && Lists(order, sv.children)
    case Deliver => s.inbox != []
  }

  function Apply(s: State, step: Step): State
    requires Enabled(s, step)
  {
    var sv := s.server;
    match step
    case CreateParent(fired) => Trigger(s.(server := sv.(parent := true)), OnParent, Created, fired)
    case SetParent(fired) => Trigger(s, OnParent, Changed, fired)
    case CreateChild(name, data, listFired) =>
      Trigger(s.(server := sv.(children := sv.children[name := data])), OnChildren, Child, listFired)
    case SetChild(name, data, fired) =>
      Trigger(s.(server := sv.(children := sv.children[name := data])), OnChild(name), Changed, fired)
    case DeleteChild(name, fired, listFired) =>
      var gone := s.(server := sv.(children := sv.children - {name}));
      Trigger(Trigger(gone, OnChild(name), Deleted, fired), OnChildren, Child, listFired)
    case Serve(order) =>
      var (reply, armed) := Answer(sv, s.requests[0], order);
      s.(server := sv.(armed := armed), requests := s.requests[1..], inbox := s.inbox + [reply])
    case Deliver =>
      var (c, out) := Handle(s.client, s.inbox[0]);
      s.(client := c, inbox := s.inbox[1..], requests := s.requests + out)
  }

  /** The state right after the user calls watch_sub_path against a server in any state. */
  predicate Init(s: State) {
    && (!s.server.parent ==> s.server.children == map[])
    && s.server.armed == map[]
    && s.requests == [AskExists(0, Dummy)] && s.inbox == []
    && s.client == Client(1, map[0 := ExistsCtx(Dummy)], None, [])
  }

  /** `steps` can be taken one after the other from `s`. */
  ghost predicate IsRun(s: State, steps: seq<Step>)
    decreases |steps|
  {
    steps == [] || (Enabled(s, steps[0]) && IsRun(Apply(s, steps[0]), steps[1..]))
  }

  function End(s: State, steps: seq<Step>): State
    requires IsRun(s, steps)
    decreases |steps|
  {
    if steps == [] then s else End(Apply(s, steps[0]), steps[1..])
  }

  predicate Quiescent(s: State) {
    s.requests == [] && s.inbox == []
  }

  // ---------- what the user sees ----------

  function Note1(view: map<Name, Data>, n: Note): map<Name, Data> {
    match n
    case ChangedNote(name, data) => view[name := data]
    case DelNote(name) => view - {name}
  }

  /** The child-to-value map a user builds by replaying the notifications. */
  function Replay(log: seq<Note>): map<Name, Data> {
    if log == [] then map[] else Note1(Replay(log[..|log| - 1]), log[|log| - 1])
  }
}
