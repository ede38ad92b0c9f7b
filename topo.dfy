/** topologicalSort (scheduler.ts): a depth-first walk over a project's tasks
    that pushes each task after the tasks it depends on. Tasks are found by id
    in a map built from the list; an id already visited is not entered again,
    which is what ends the walk on a cycle. */
module Topo {
  import opened Types

  /** The ids of a list of tasks. */
  function Ids(ts: seq<Task>): set<string> {
    set i | 0 <= i < |ts| :: ts[i].id
  }

  predicate DistinctIds(ts: seq<Task>) {
    forall i, j :: 0 <= i < j < |ts| ==> ts[i].id != ts[j].id
  }

  /** Every entry of the map is the task with that id. */
  predicate Keyed(m: map<string, Task>) {
    forall k :: k in m ==> m[k].id == k
  }

  /** `new Map(tasks.map(t => [t.id, t]))`: of two tasks with one id the later
      one is kept. */
  function TaskMap(ts: seq<Task>): (m: map<string, Task>)
    ensures Keyed(m) && m.Keys == Ids(ts)
    ensures forall k :: k in m ==> m[k] in ts
  {
    if ts == [] then map[]
    else
      var init := ts[..|ts| - 1];
      var last := ts[|ts| - 1];
      var m := TaskMap(init)[last.id := last];
      assert Ids(ts) == Ids(init) + {last.id} by {
        forall k | k in Ids(ts)
          ensures k in Ids(init) + {last.id}
        {
          var i :| 0 <= i < |ts| && ts[i].id == k;
          if i < |ts| - 1 {
            assert init[i].id == k;
          }
        }
      }
      m
  }

  /** The state of the walk: the ids entered so far and the output list. */
  datatype Walk = Walk(visited: set<string>, sorted: seq<Task>)

  /** `visit(task)`: nothing if its id was entered before; otherwise enter it,
      visit the dependencies that are in the map, in order, then push it. */
  function WalkFrom(m: map<string, Task>, t: Task, w: Walk): (r: Walk)
    requires Keyed(m) && t.id in m
    ensures w.visited <= r.visited && t.id in r.visited
    ensures |w.sorted| <= |r.sorted| && r.sorted[..|w.sorted|] == w.sorted
    decreases m.Keys - w.visited, 0
  {
    if t.id in w.visited then w
    else
      var w1 := WalkDeps(m, t.dependencies, Walk(w.visited + {t.id}, w.sorted));
      Walk(w1.visited, w1.sorted + [t])
  }

  /** The loop over `task.dependencies` inside `visit`: ids with no task in
      the map are skipped. */
  function WalkDeps(m: map<string, Task>, deps: seq<string>, w: Walk): (r: Walk)
    requires Keyed(m)
    ensures w.visited <= r.visited
    ensures |w.sorted| <= |r.sorted| && r.sorted[..|w.sorted|] == w.sorted
    decreases m.Keys - w.visited, 1, |deps|
  {
    if deps == [] then w
    else
      var w1 := WalkDeps(m, deps[..|deps| - 1], w);
      var d := deps[|deps| - 1];
      if d in m then
        var r := WalkFrom(m, m[d], w1);
        assert r.sorted[..|w.sorted|] == r.sorted[..|w1.sorted|][..|w.sorted|];
        r
      else w1
  }

  /** The outer loop of topologicalSort: visit every task in list order. */
  function WalkAll(m: map<string, Task>, ts: seq<Task>, w: Walk): (r: Walk)
    requires Keyed(m) && forall i :: 0 <= i < |ts| ==> ts[i].id in m
    ensures w.visited <= r.visited
    ensures |w.sorted| <= |r.sorted| && r.sorted[..|w.sorted|] == w.sorted
  {
    if ts == [] then w
    else
      var w1 := WalkAll(m, ts[..|ts| - 1], w);
      var r := WalkFrom(m, ts[|ts| - 1], w1);
      assert r.sorted[..|w.sorted|] == r.sorted[..|w1.sorted|][..|w.sorted|];
      r
  }

  /** The list topologicalSort returns. */
  function TopoOrder(ts: seq<Task>): seq<Task> {
    WalkAll(TaskMap(ts), ts, Walk({}, [])).sorted
  }

  // -------------------------------------------------------------- what a walk adds

  /** What a walk appended to the output list. */
  function Added(w: Walk, r: Walk): seq<Task>
    requires |w.sorted| <= |r.sorted|
  {
    r.sorted[|w.sorted|..]
  }

  lemma IdsAppend(a: seq<Task>, b: seq<Task>)
    ensures Ids(a + b) == Ids(a) + Ids(b)
  {
    var ab := a + b;
    forall k | k in Ids(ab)
      ensures k in Ids(a) + Ids(b)
    {
      var i :| 0 <= i < |ab| && ab[i].id == k;
      if i < |a| {
        assert a[i].id == k;
      } else {
        assert b[i - |a|].id == k;
      }
    }
    forall k | k in Ids(a) + Ids(b)
      ensures k in Ids(ab)
    {
      if k in Ids(a) {
        var i :| 0 <= i < |a| && a[i].id == k;
        assert ab[i].id == k;
      } else {
        var i :| 0 <= i < |b| && b[i].id == k;
        assert ab[|a| + i].id == k;
      }
    }
  }

  lemma DistinctAppend(a: seq<Task>, b: seq<Task>)
    requires DistinctIds(a) && DistinctIds(b) && Ids(a) !! Ids(b)
    ensures DistinctIds(a + b)
  {
    var ab := a + b;
    forall i, j | 0 <= i < j < |ab|
      ensures ab[i].id != ab[j].id
    {
      if j < |a| {
        assert ab[i] == a[i] && ab[j] == a[j];
      } else if |a| <= i {
        assert ab[i] == b[i - |a|] && ab[j] == b[j - |a|];
      } else {
        assert ab[i].id in Ids(a) && ab[j] == b[j - |a|];
        assert ab[j].id in Ids(b);
      }
    }
  }

  /** Two walks one after the other add what each adds, in order. */
  lemma AddedSplit(w: Walk, w1: Walk, r: Walk)
    requires |w.sorted| <= |w1.sorted| <= |r.sorted|
    requires w1.sorted[..|w.sorted|] == w.sorted && r.sorted[..|w1.sorted|] == w1.sorted
    ensures Added(w, r) == Added(w, w1) + Added(w1, r)
  {
  }

  /** A walk adds exactly the tasks whose ids it enters, once each, and only
      tasks of the map or the task it started from. */
  lemma {:induction false} WalkFromAdds(m: map<string, Task>, t: Task, w: Walk)
    requires Keyed(m) && t.id in m
    ensures var r := WalkFrom(m, t, w);
            Ids(Added(w, r)) == r.visited - w.visited && DistinctIds(Added(w, r))
            && forall x :: x in Added(w, r) ==> x == t || x in m.Values
    decreases m.Keys - w.visited, 0
  {
    var r := WalkFrom(m, t, w);
    if t.id !in w.visited {
      var w0 := Walk(w.visited + {t.id}, w.sorted);
      var w1 := WalkDeps(m, t.dependencies, w0);
      WalkDepsAdds(m, t.dependencies, w0);
      var n1 := Added(w0, w1);
      assert Added(w, r) == n1 + [t];
      IdsAppend(n1, [t]);
      assert [t][0] == t;
      assert Ids([t]) == {t.id};
      DistinctAppend(n1, [t]);
    }
  }

  lemma {:induction false} WalkDepsAdds(m: map<string, Task>, deps: seq<string>, w: Walk)
    requires Keyed(m)
    ensures var r := WalkDeps(m, deps, w);
            Ids(Added(w, r)) == r.visited - w.visited && DistinctIds(Added(w, r))
            && (forall x :: x in Added(w, r) ==> x in m.Values)
            && forall j :: 0 <= j < |deps| && deps[j] in m ==> deps[j] in r.visited
    decreases m.Keys - w.visited, 1, |deps|
  {
    var r := WalkDeps(m, deps, w);
    if deps != [] {
      var w1 := WalkDeps(m, deps[..|deps| - 1], w);
      WalkDepsAdds(m, deps[..|deps| - 1], w);
      var d := deps[|deps| - 1];
      if d in m {
        WalkFromAdds(m, m[d], w1);
        AddedSplit(w, w1, r);
        IdsAppend(Added(w, w1), Added(w1, r));
        DistinctAppend(Added(w, w1), Added(w1, r));
      } else {
        assert r == w1;
      }
      forall j | 0 <= j < |deps| && deps[j] in m
        ensures deps[j] in r.visited
      {
        if j < |deps| - 1 {
          assert deps[..|deps| - 1][j] == deps[j];
        }
      }
    }
  }

  /** What the walk keeps true: the output holds the visited ids, each
      once, and only tasks of the list. */
  predicate WalkOk(ts: seq<Task>, w: Walk) {
    Ids(w.sorted) == w.visited && DistinctIds(w.sorted) && forall x :: x in w.sorted ==> x in ts
  }

  /** Visiting a task of the list keeps the walk in order. */
  lemma WalkFromKeepsOk(ts: seq<Task>, t: Task, w: Walk)
    requires t in ts && WalkOk(ts, w)
    ensures WalkOk(ts, WalkFrom(TaskMap(ts), t, w))
  {
    var m := TaskMap(ts);
    var r := WalkFrom(m, t, w);
    WalkFromAdds(m, t, w);
    var n := Added(w, r);
    assert r.sorted == w.sorted + n;
    IdsAppend(w.sorted, n);
    DistinctAppend(w.sorted, n);
    forall x | x in r.sorted
      ensures x in ts
    {
      if x !in w.sorted {
        assert x in n;
        if x != t {
          var k :| k in m && m[k] == x;
        }
      }
    }
  }

  /** Over the whole list: starting from an empty walk, the visited ids are
      the ids of the output, each once, and every output task is one of the
      list's tasks. */
  lemma {:induction false} WalkAllAdds(ts: seq<Task>, prefix: nat)
    requires prefix <= |ts|
    ensures var r := WalkAll(TaskMap(ts), ts[..prefix], Walk({}, []));
            Ids(r.sorted) == r.visited && DistinctIds(r.sorted)
            && (forall x :: x in r.sorted ==> x in ts)
            && forall i :: 0 <= i < prefix ==> ts[i].id in r.visited
  {
    var m := TaskMap(ts);
    var w := Walk({}, []);
    var r := WalkAll(m, ts[..prefix], w);
    if prefix > 0 {
      WalkAllAdds(ts, prefix - 1);
      assert ts[..prefix][..prefix - 1] == ts[..prefix - 1];
      var w1 := WalkAll(m, ts[..prefix - 1], w);
      var t := ts[prefix - 1];
      assert r == WalkFrom(m, t, w1);
      assert WalkOk(ts, w1);
      WalkFromKeepsOk(ts, t, w1);
      forall i | 0 <= i < prefix
        ensures ts[i].id in r.visited
      {
        if i < prefix - 1 {
          assert ts[i].id in w1.visited;
        }
      }
    } else {
      assert r == w;
    }
  }

  /** topologicalSort returns one task for each distinct id of the list, each
      of them a task of the list. */
  lemma TopoOrderIsSelection(ts: seq<Task>)
    ensures var s := TopoOrder(ts);
            DistinctIds(s) && Ids(s) == Ids(ts) && (forall x :: x in s ==> x in ts)
  {
    WalkAllAdds(ts, |ts|);
    assert ts[..|ts|] == ts;
    var r := WalkAll(TaskMap(ts), ts, Walk({}, []));
    forall k | k in Ids(ts)
      ensures k in r.visited
    {
      var i :| 0 <= i < |ts| && ts[i].id == k;
    }
    forall k | k in r.visited
      ensures k in Ids(ts)
    {
      var i :| 0 <= i < |r.sorted| && r.sorted[i].id == k;
      var x := r.sorted[i];
      assert x in r.sorted;
      var j :| 0 <= j < |ts| && ts[j] == x;
    }
  }

  lemma {:induction false} IdsSize(s: seq<Task>)
    ensures |Ids(s)| <= |s|
    ensures DistinctIds(s) ==> |Ids(s)| == |s|
  {
    if s != [] {
      var init := s[..|s| - 1];
      IdsSize(init);
      IdsAppend(init, [s[|s| - 1]]);
      assert init + [s[|s| - 1]] == s;
      assert [s[|s| - 1]][0] == s[|s| - 1];
      assert Ids([s[|s| - 1]]) == {s[|s| - 1].id};
      if DistinctIds(s) {
        assert DistinctIds(init);
        assert s[|s| - 1].id !in Ids(init);
      }
    }
  }

  /** topologicalSort returns as many tasks as the list has distinct ids, so
      never more than the list has tasks. */
  lemma TopoOrderSize(ts: seq<Task>)
    ensures |TopoOrder(ts)| == |Ids(ts)| <= |ts|
  {
    TopoOrderIsSelection(ts);
    IdsSize(TopoOrder(ts));
    IdsSize(ts);
  }

  // ------------------------------------------------------- dependency order

  /** Every dependency of `x` that names a task ranks below `x`. */
  predicate DepsBelow(x: Task, keys: set<string>, rank: map<string, nat>) {
    x.id in rank
    && forall j :: 0 <= j < |x.dependencies| && x.dependencies[j] in keys ==>
         x.dependencies[j] in rank && rank[x.dependencies[j]] < rank[x.id]
  }

  /** A ranking of the ids under which every dependency edge goes down: the
      dependency graph of the list has no cycle. */
  predicate Ranking(ts: seq<Task>, rank: map<string, nat>) {
    forall x :: x in ts ==> DepsBelow(x, Ids(ts), rank)
  }

  /** Every dependency that names a task of `keys` comes earlier in the list. */
  predicate DepsFirst(s: seq<Task>, keys: set<string>) {
    forall i, j :: 0 <= i < |s| && 0 <= j < |s[i].dependencies| && s[i].dependencies[j] in keys ==>
      s[i].dependencies[j] in Ids(s[..i])
  }

  /** The ids entered but not yet pushed: the tasks whose visit is under way. */
  function OnStack(w: Walk): set<string> {
    w.visited - Ids(w.sorted)
  }

  lemma DepsFirstPush(s: seq<Task>, keys: set<string>, t: Task)
    requires DepsFirst(s, keys)
    requires forall j :: 0 <= j < |t.dependencies| && t.dependencies[j] in keys ==> t.dependencies[j] in Ids(s)
    ensures DepsFirst(s + [t], keys)
  {
    var s' := s + [t];
    forall i, j | 0 <= i < |s'| && 0 <= j < |s'[i].dependencies| && s'[i].dependencies[j] in keys
      ensures s'[i].dependencies[j] in Ids(s'[..i])
    {
      if i < |s| {
        assert s'[..i] == s[..i] && s'[i] == s[i];
      } else {
        assert s'[..i] == s && s'[i] == t;
      }
    }
  }

  /** Visiting a task while every task on the stack ranks above it pushes it after
      the dependencies it has in the map, and leaves the stack as it was. */
  lemma {:induction false} WalkFromOrder(m: map<string, Task>, ts: seq<Task>, rank: map<string, nat>,
                                         t: Task, w: Walk)
    requires Keyed(m) && m.Keys == Ids(ts) && (forall k :: k in m ==> m[k] in ts) && Ranking(ts, rank)
    requires t in ts && t.id in m
    requires Ids(w.sorted) <= w.visited && DepsFirst(w.sorted, m.Keys)
    requires forall o :: o in OnStack(w) ==> o in rank && rank[o] > rank[t.id]
    ensures var r := WalkFrom(m, t, w);
            Ids(r.sorted) <= r.visited && DepsFirst(r.sorted, m.Keys) && OnStack(r) == OnStack(w)
    decreases m.Keys - w.visited, 0
  {
    var r := WalkFrom(m, t, w);
    WalkFromAdds(m, t, w);
    IdsAppend(w.sorted, Added(w, r));
    assert r.sorted == w.sorted + Added(w, r);
    if t.id !in w.visited {
      var w0 := Walk(w.visited + {t.id}, w.sorted);
      assert DepsBelow(t, Ids(ts), rank);
      WalkDepsOrder(m, ts, rank, t.dependencies, rank[t.id], w0);
      var w1 := WalkDeps(m, t.dependencies, w0);
      WalkDepsAdds(m, t.dependencies, w0);
      assert OnStack(w0) == OnStack(w) + {t.id};
      forall j | 0 <= j < |t.dependencies| && t.dependencies[j] in m.Keys
        ensures t.dependencies[j] in Ids(w1.sorted)
      {
        var d := t.dependencies[j];
        assert d in w1.visited;
        assert rank[d] < rank[t.id];
        assert d !in OnStack(w1);
      }
      DepsFirstPush(w1.sorted, m.Keys, t);
    }
  }

  lemma {:induction false} WalkDepsOrder(m: map<string, Task>, ts: seq<Task>, rank: map<string, nat>,
                                         deps: seq<string>, bound: nat, w: Walk)
    requires Keyed(m) && m.Keys == Ids(ts) && (forall k :: k in m ==> m[k] in ts) && Ranking(ts, rank)
    requires forall j :: 0 <= j < |deps| && deps[j] in m.Keys ==> deps[j] in rank && rank[deps[j]] < bound
    requires Ids(w.sorted) <= w.visited && DepsFirst(w.sorted, m.Keys)
    requires forall o :: o in OnStack(w) ==> o in rank && rank[o] >= bound
    ensures var r := WalkDeps(m, deps, w);
            Ids(r.sorted) <= r.visited && DepsFirst(r.sorted, m.Keys) && OnStack(r) == OnStack(w)
    decreases m.Keys - w.visited, 1, |deps|
  {
    if deps != [] {
      var pre := deps[..|deps| - 1];
      assert forall j :: 0 <= j < |pre| ==> pre[j] == deps[j];
      WalkDepsOrder(m, ts, rank, pre, bound, w);
      var w1 := WalkDeps(m, pre, w);
      var d := deps[|deps| - 1];
      if d in m {
        assert rank[d] < bound;
        WalkFromOrder(m, ts, rank, m[d], w1);
      }
    }
  }

  /** Over the whole list, from an empty walk, nothing stays open and every
      dependency that names a task precedes its dependent. */
  lemma {:induction false} WalkAllOrder(ts: seq<Task>, rank: map<string, nat>, prefix: nat)
    requires Ranking(ts, rank) && prefix <= |ts|
    ensures var r := WalkAll(TaskMap(ts), ts[..prefix], Walk({}, []));
            Ids(r.sorted) <= r.visited && DepsFirst(r.sorted, Ids(ts)) && OnStack(r) == {}
  {
    var m := TaskMap(ts);
    var w := Walk({}, []);
    if prefix > 0 {
      WalkAllOrder(ts, rank, prefix - 1);
      assert ts[..prefix][..prefix - 1] == ts[..prefix - 1];
      var w1 := WalkAll(m, ts[..prefix - 1], w);
      WalkFromOrder(m, ts, rank, ts[prefix - 1], w1);
    } else {
      assert Ids([]) == {};
    }
  }

  /** When the dependencies admit a ranking (the graph is acyclic), every
      dependency that names a task of the project comes before its dependent
      in the order topologicalSort returns. */
  lemma TopoOrderDepsFirst(ts: seq<Task>, rank: map<string, nat>)
    requires Ranking(ts, rank)
    ensures DepsFirst(TopoOrder(ts), Ids(ts))
  {
    WalkAllOrder(ts, rank, |ts|);
    assert ts[..|ts|] == ts;
  }

  // ------------------------------------------------------------ the method

  /** The closure of topologicalSort: the task map, the visited set and the
      output list it pushes to. */
  class TopoSorter {
    const taskMap: map<string, Task>
    var visited: set<string>
    var sorted: seq<Task>

    constructor (tasks: seq<Task>)
      ensures taskMap == TaskMap(tasks) && visited == {} && sorted == []
    {
      taskMap := TaskMap(tasks);
      visited := {};
      sorted := [];
    }

    /** `visit(task)`. */
    method Visit(t: Task)
      requires Keyed(taskMap) && t.id in taskMap
      modifies this
      ensures Walk(visited, sorted) == WalkFrom(taskMap, t, old(Walk(visited, sorted)))
      decreases taskMap.Keys - visited, 0
    {
      if t.id in visited {
        return;
      }
      ghost var entry := visited;
      visited := visited + {t.id};
      ghost var w0 := Walk(visited, sorted);
      for i := 0 to |t.dependencies|
        invariant Walk(visited, sorted) == WalkDeps(taskMap, t.dependencies[..i], w0)
        invariant entry + {t.id} <= visited
      {
        assert t.dependencies[..i + 1][..i] == t.dependencies[..i];
        var depId := t.dependencies[i];
        if depId in taskMap {
          Visit(taskMap[depId]);
        }
      }
      assert t.dependencies[..|t.dependencies|] == t.dependencies;
      sorted := sorted + [t];
    }
  }

  /** topologicalSort: visit every task in list order and return the output
      list. */
  method TopologicalSort(tasks: seq<Task>) returns (sorted: seq<Task>)
    ensures sorted == TopoOrder(tasks)
  {
    var sorter := new TopoSorter(tasks);
    for i := 0 to |tasks|
      invariant sorter.taskMap == TaskMap(tasks)
      invariant Walk(sorter.visited, sorter.sorted) == WalkAll(sorter.taskMap, tasks[..i], Walk({}, []))
    {
      assert tasks[..i + 1][..i] == tasks[..i];
      sorter.Visit(tasks[i]);
    }
    assert tasks[..|tasks|] == tasks;
    sorted := sorter.sorted;
  }
}
