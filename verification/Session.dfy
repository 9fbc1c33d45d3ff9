/**
 * Session expiry: what `config_monitor` remembers across sessions and what it opens again.
 *
 * The object keeps the record of every watch the user asked for, the cached child sets, the
 * exists contexts of the current session and the children it reads, by path.
 * Callbacks are identified by a number.
 */
module Session {
  import opened Seqs
  import opened SubWatch
  import opened SubWatchConvergence
  import opened SubWatchClient

  datatype Use = ForPath | ForSubPath

  datatype Context = Context(path: string, use: Use, callback: nat)

  ghost predicate HasContext(contexts: map<nat, Context>, c: Context) {
    exists x :: x in contexts && contexts[x] == c
  }

  ghost predicate HasAll(contexts: map<nat, Context>, records: map<string, nat>, use: Use) {
    forall p :: p in records ==> HasContext(contexts, Context(p, use, records[p]))
  }

  /** A context stands for a recorded watch. */
  predicate Recorded(c: Context, paths: map<string, nat>, subPaths: map<string, nat>) {
    var records := if c.use == ForPath then paths else subPaths;
    c.path in records && records[c.path] == c.callback
  }

  /** The contexts are exactly one per recorded watch. */
  ghost predicate OnePerRecord(contexts: map<nat, Context>, paths: map<string, nat>, subPaths: map<string, nat>) {
    && (forall x :: x in contexts ==> Recorded(contexts[x], paths, subPaths))
    && HasAll(contexts, paths, ForPath) && HasAll(contexts, subPaths, ForSubPath)
    && (forall x, y :: x in contexts && y in contexts && contexts[x] == contexts[y] ==> x == y)
  }

  /** Opening one more context for a path that has none keeps the correspondence. */
  lemma OneMoreRecord(contexts: map<nat, Context>, paths: map<string, nat>, subPaths: map<string, nat>,
                      x: nat, c: Context)
    requires OnePerRecord(contexts, paths, subPaths) && x !in contexts
    requires c.path !in (if c.use == ForPath then paths else subPaths)
    ensures c.use == ForPath ==> OnePerRecord(contexts[x := c], paths[c.path := c.callback], subPaths)
    ensures c.use == ForSubPath ==> OnePerRecord(contexts[x := c], paths, subPaths[c.path := c.callback])
  {
    var records := if c.use == ForPath then paths else subPaths;
    RecordsStay(contexts, paths, ForPath, x, c);
    RecordsStay(contexts, subPaths, ForSubPath, x, c);
    RecordGrows(contexts[x := c], records, c);
    OthersDiffer(contexts, paths, subPaths, c);
    var paths' := if c.use == ForPath then paths[c.path := c.callback] else paths;
    var subPaths' := if c.use == ForPath then subPaths else subPaths[c.path := c.callback];
    var contexts' := contexts[x := c];
    forall y | y in contexts' ensures Recorded(contexts'[y], paths', subPaths') {
      if y != x { assert Recorded(contexts[y], paths, subPaths); }
    }
  }

  lemma RecordGrows(contexts: map<nat, Context>, records: map<string, nat>, c: Context)
    requires HasAll(contexts, records, c.use) && HasContext(contexts, c)
    ensures HasAll(contexts, records[c.path := c.callback], c.use)
  {
    var records' := records[c.path := c.callback];
    forall p | p in records' ensures HasContext(contexts, Context(p, c.use, records'[p])) {
      if p != c.path { assert HasContext(contexts, Context(p, c.use, records[p])); }
    }
  }

  lemma OthersDiffer(contexts: map<nat, Context>, paths: map<string, nat>, subPaths: map<string, nat>, c: Context)
    requires forall x :: x in contexts ==> Recorded(contexts[x], paths, subPaths)
    requires c.path !in (if c.use == ForPath then paths else subPaths)
    ensures forall x :: x in contexts ==> contexts[x] != c
  {}

  /** A further context takes none away. */
  lemma RecordsStay(contexts: map<nat, Context>, records: map<string, nat>, use: Use, x: nat, c: Context)
    requires x !in contexts && HasAll(contexts, records, use)
    ensures HasAll(contexts[x := c], records, use) && HasContext(contexts[x := c], c)
  {
    assert contexts[x := c][x] == c;
    forall p | p in records ensures HasContext(contexts[x := c], Context(p, use, records[p])) {
      var y :| y in contexts && contexts[y] == Context(p, use, records[p]);
      assert contexts[x := c][y] == contexts[y];
    }
  }

  // ---------- the children of a listing ----------

  function ChildPath(prefix: string, name: Name): string { prefix + "/" + name }

  /** The paths of the names, in their order. */
  function ChildPaths(prefix: string, names: seq<Name>): seq<string> {
    if names == [] then [] else ChildPaths(prefix, names[..|names| - 1]) + [ChildPath(prefix, names[|names| - 1])]
  }

  lemma {:induction false} ChildPathsAre(prefix: string, names: seq<Name>)
    ensures |ChildPaths(prefix, names)| == |names|
    ensures forall i :: 0 <= i < |names| ==> ChildPaths(prefix, names)[i] == ChildPath(prefix, names[i])
  {
    if names != [] { ChildPathsAre(prefix, names[..|names| - 1]); }
  }

  /** Each name is read exactly once. */
  predicate ReadOnce(paths: seq<string>, prefix: string, names: set<Name>) {
    Distinct(paths) && Elements(paths) == set n | n in names :: ChildPath(prefix, n)
  }

  lemma DistinctAreReadOnce(prefix: string, names: seq<Name>)
    requires Distinct(names)
    ensures ReadOnce(ChildPaths(prefix, names), prefix, Elements(names))
  {
    var r := ChildPaths(prefix, names);
    ChildPathsAre(prefix, names);
    forall i, j | 0 <= i < j < |r| ensures r[i] != r[j] {
      if r[i] == r[j] { SameChild(prefix, names[i], names[j]); }
    }
    forall p ensures p in Elements(r) <==> p in set n | n in Elements(names) :: ChildPath(prefix, n) {
      if p in r {
        var i :| 0 <= i < |r| && r[i] == p;
        assert names[i] in Elements(names);
      }
      if n :| n in Elements(names) && ChildPath(prefix, n) == p {
        var i :| 0 <= i < |names| && names[i] == n;
        assert r[i] == p;
      }
    }
  }

  lemma SameChild(prefix: string, a: Name, b: Name)
    requires ChildPath(prefix, a) == ChildPath(prefix, b)
    ensures a == b
  {
    assert ChildPath(prefix, a)[|prefix| + 1..] == a && ChildPath(prefix, b)[|prefix| + 1..] == b;
  }

  class ConfigMonitor {
    var watchRecord: map<string, nat>
    var watchSubRecord: map<string, nat>
    var lastSubPath: map<string, set<Name>>
    var contexts: map<nat, Context>
    var childReads: seq<string>
    var next: nat

    ghost predicate Valid()
      reads this
    {
      forall x :: x in contexts ==> x < next
    }

    constructor ()
      ensures Valid() && watchRecord == map[] && watchSubRecord == map[] && lastSubPath == map[]
      ensures contexts == map[] && childReads == []
    {
      watchRecord, watchSubRecord, lastSubPath := map[], map[], map[];
      contexts, childReads, next := map[], [], 0;
    }

    /** Opens an exists context; the session's table owns it. */
    method WatchPathEvent(path: string, use: Use, callback: nat)
      requires Valid()
      modifies this`contexts, this`next
      ensures Valid() && old(next) !in old(contexts)
      ensures contexts == old(contexts)[old(next) := Context(path, use, callback)]
    {
      contexts := contexts[next := Context(path, use, callback)];
      next := next + 1;
    }

    method WatchPath(path: string, callback: nat)
      requires Valid()
      modifies this`watchRecord, this`contexts, this`next
      ensures Valid() && watchRecord == old(watchRecord)[path := callback]
      ensures old(next) !in old(contexts)
      ensures contexts == old(contexts)[old(next) := Context(path, ForPath, callback)]
    {
      watchRecord := watchRecord[path := callback];
      WatchPathEvent(path, ForPath, callback);
    }

    method WatchSubPath(path: string, callback: nat)
      requires Valid()
      modifies this`watchSubRecord, this`contexts, this`next
      ensures Valid() && watchSubRecord == old(watchSubRecord)[path := callback]
      ensures old(next) !in old(contexts)
      ensures contexts == old(contexts)[old(next) := Context(path, ForSubPath, callback)]
    {
      watchSubRecord := watchSubRecord[path := callback];
      WatchPathEvent(path, ForSubPath, callback);
    }

    /** One read context for each name that is not known, in listing order. */
    method Monitor(prefix: string, names: seq<Name>, known: set<Name>) returns (monitored: seq<Name>)
      modifies this`childReads
      ensures monitored == Fresh(names, known)
      ensures childReads == old(childReads) + ChildPaths(prefix, monitored)
    {
      monitored := [];
      for i := 0 to |names|
        invariant monitored == Fresh(names[..i], known)
        invariant childReads == old(childReads) + ChildPaths(prefix, monitored)
      {
        assert names[..i + 1] == names[..i] + [names[i]];
        FreshSnoc(names[..i], known, names[i]);
        if names[i] in known {
          continue;
        }
        assert (monitored + [names[i]])[..|monitored|] == monitored;
        Associates(old(childReads), ChildPaths(prefix, monitored), [ChildPath(prefix, names[i])]);
        childReads := childReads + [ChildPath(prefix, names[i])];
        monitored := monitored + [names[i]];
      }
      assert names[..|names|] == names;
    }

    /** The listing completion of one watched parent: a read context for each listed name that is
        not cached, no other; the cached set of that parent is replaced and the others stay. */
    method OnListing(prefix: string, names: seq<Name>) returns (monitored: seq<Name>)
      modifies this`lastSubPath, this`childReads
      ensures forall n :: n in monitored <==>
                n in names && (prefix in old(lastSubPath) ==> n !in old(lastSubPath)[prefix])
      ensures Distinct(names) ==> Distinct(monitored)
      ensures prefix !in old(lastSubPath) ==> monitored == names
      ensures childReads == old(childReads) + ChildPaths(prefix, monitored)
      ensures lastSubPath.Keys == old(lastSubPath).Keys + {prefix} && lastSubPath[prefix] == Elements(names)
      ensures forall p :: p in old(lastSubPath) && p != prefix ==> lastSubPath[p] == old(lastSubPath)[p]
    {
      var known := if prefix in lastSubPath then lastSubPath[prefix] else {};
      monitored := Monitor(prefix, names, known);
      FreshIs(names, known);
      if Distinct(names) { FreshDistinct(names, known); }
      if known == {} { FreshOfNone(names); }
      lastSubPath := lastSubPath[prefix := Elements(names)];
    }

    /** Watches the moved-out paths again, one after the other. */
    method RewatchPaths(paths: map<string, nat>)
      requires Valid() && watchRecord == map[] && OnePerRecord(contexts, map[], watchSubRecord)
      modifies this`watchRecord, this`contexts, this`next
      ensures Valid() && watchRecord == paths && OnePerRecord(contexts, paths, watchSubRecord)
    {
      var todo := paths.Keys;
      while todo != {}
        invariant Valid() && todo <= paths.Keys
        invariant watchRecord == map p | p in paths.Keys - todo :: paths[p]
        invariant OnePerRecord(contexts, watchRecord, watchSubRecord)
        decreases todo
      {
        var path :| path in todo;
        OneMoreRecord(contexts, watchRecord, watchSubRecord, next, Context(path, ForPath, paths[path]));
        WatchPath(path, paths[path]);
        todo := todo - {path};
      }
      assert watchRecord == paths;
    }

    method RewatchSubPaths(paths: map<string, nat>)
      requires Valid() && watchSubRecord == map[] && OnePerRecord(contexts, watchRecord, map[])
      modifies this`watchSubRecord, this`contexts, this`next
      ensures Valid() && watchSubRecord == paths && OnePerRecord(contexts, watchRecord, paths)
    {
      var todo := paths.Keys;
      while todo != {}
        invariant Valid() && todo <= paths.Keys
        invariant watchSubRecord == map p | p in paths.Keys - todo :: paths[p]
        invariant OnePerRecord(contexts, watchRecord, watchSubRecord)
        decreases todo
      {
        var path :| path in todo;
        OneMoreRecord(contexts, watchRecord, watchSubRecord, next, Context(path, ForSubPath, paths[path]));
        WatchSubPath(path, paths[path]);
        todo := todo - {path};
      }
      assert watchSubRecord == paths;
    }

    /** The expired-session callback: drop the session's contexts and the cached children, then
        watch every recorded path again. */
    method OnExpired()
      requires Valid()
      modifies this
      ensures Valid()
      ensures watchRecord == old(watchRecord) && watchSubRecord == old(watchSubRecord)
      ensures lastSubPath == map[]
      ensures OnePerRecord(contexts, watchRecord, watchSubRecord) && childReads == []
    {
      contexts, childReads := map[], [];
      lastSubPath := map[];
      var paths, subPaths := watchRecord, watchSubRecord;
      watchRecord, watchSubRecord := map[], map[];
      RewatchPaths(paths);
      RewatchSubPaths(subPaths);
    }

    /** However many sessions expire one after the other, every recorded watch has exactly one
        context in the last session, and the first listing of any parent opens exactly one read
        context for every child. */
    method ExpireThenList(times: nat, prefix: string, names: seq<Name>) returns (monitored: seq<Name>)
      requires Valid() && times > 0
      modifies this
      ensures Valid()
      ensures watchRecord == old(watchRecord) && watchSubRecord == old(watchSubRecord)
      ensures OnePerRecord(contexts, watchRecord, watchSubRecord)
      ensures monitored == names && (Distinct(names) ==> ReadOnce(childReads, prefix, Elements(names)))
    {
      for i := 0 to times
        invariant Valid()
        invariant watchRecord == old(watchRecord) && watchSubRecord == old(watchSubRecord)
        invariant i > 0 ==> OnePerRecord(contexts, watchRecord, watchSubRecord) && lastSubPath == map[]
        invariant i > 0 ==> childReads == []
      {
        OnExpired();
      }
      monitored := OnListing(prefix, names);
      assert childReads == ChildPaths(prefix, names);
      if Distinct(names) { DistinctAreReadOnce(prefix, names); }
    }
  }

  lemma {:induction false} FreshOfNone(names: seq<Name>)
    ensures Fresh(names, {}) == names
  {
    if names != [] { FreshOfNone(names[1..]); }
  }
}
