/**
 The dependency checks at the end of parsing a DAG
 (internal/scheduler/parser/parser.go, Parse).
 */
module DependencyChecks {
  import opened TaskModel
  import opened DagGraph
  import CycleDetection

  datatype Rejection =
    | DuplicateTask(id: string)
    | DuplicateDependency(id: string, dep: string)
    | UnknownDependency(id: string, dep: string)
    | SelfDependency(id: string)
    | Cycle(path: seq<string>, back: string)

  datatype Verdict = Ok | Reject(why: Rejection)

  ghost predicate DistinctIds(tasks: seq<Task>) {
    forall i, j :: 0 <= i < j < |tasks| ==> tasks[i].id != tasks[j].id
  }

  ghost predicate Known(tasks: seq<Task>, dep: string) {
    exists k :: 0 <= k < |tasks| && tasks[k].id == dep
  }

  ghost predicate KnownDeps(tasks: seq<Task>) {
    forall i, d :: 0 <= i < |tasks| && d in tasks[i].deps ==> Known(tasks, d)
  }

  ghost predicate NoRepeats(deps: seq<string>) {
    forall i, j :: 0 <= i < j < |deps| ==> deps[i] != deps[j]
  }

  ghost predicate NoRepeatedDeps(tasks: seq<Task>) {
    forall i :: 0 <= i < |tasks| ==> NoRepeats(tasks[i].deps)
  }

  /** What is known of a task list the parser has accepted. */
  ghost predicate Accepted(tasks: seq<Task>) {
    && DistinctIds(tasks)
    && KnownDeps(tasks)
    && NoRepeatedDeps(tasks)
    && !HasCycle(Adjacency(tasks))
  }

  ghost predicate DependsOn(tasks: seq<Task>, a: string, b: string) {
    exists i :: 0 <= i < |tasks| && tasks[i].id == a && b in tasks[i].deps
  }

  ghost predicate DependsAt(tasks: seq<Task>, p: seq<string>, i: nat)
    requires i + 1 < |p|
  {
    DependsOn(tasks, p[i], p[i + 1])
  }

  /** A chain of tasks, each listing the next among its dependencies, that comes back to where it began. */
  ghost predicate IsCircular(tasks: seq<Task>, p: seq<string>) {
    |p| >= 2 && p[0] == p[|p| - 1] && forall i: nat :: i + 1 < |p| ==> DependsAt(tasks, p, i)
  }

  lemma EdgeIsDependency(tasks: seq<Task>, a: string, b: string)
    requires DistinctIds(tasks)
    ensures Edge(Adjacency(tasks), a, b) <==> DependsOn(tasks, a, b)
  {
    if Edge(Adjacency(tasks), a, b) {
      AdjacencyKeys(tasks, a);
    }
    if i :| 0 <= i < |tasks| && tasks[i].id == a && b in tasks[i].deps {
      AdjacencyOf(tasks, i);
    }
  }

  /** With distinct ids the graph searched has a cycle exactly when the tasks as listed depend on each other in a circle. */
  lemma CycleIsCircular(tasks: seq<Task>)
    requires DistinctIds(tasks)
    ensures HasCycle(Adjacency(tasks)) <==> exists p :: IsCircular(tasks, p)
  {
    forall p: seq<string>, i: nat | i + 1 < |p|
      ensures StepAt(Adjacency(tasks), p, i) <==> DependsAt(tasks, p, i)
    {
      EdgeIsDependency(tasks, p[i], p[i + 1]);
    }
    forall p
      ensures IsCycle(Adjacency(tasks), p) <==> IsCircular(tasks, p)
    {
    }
  }

  /** A task that names itself closes a cycle of length one. */
  lemma SelfDependencyIsCycle(tasks: seq<Task>, i: nat)
    requires i < |tasks| && DistinctIds(tasks) && tasks[i].id in tasks[i].deps
    ensures HasCycle(Adjacency(tasks))
  {
    AdjacencyOf(tasks, i);
    WalkSnoc(Adjacency(tasks), [tasks[i].id], tasks[i].id);
    assert IsCycle(Adjacency(tasks), [tasks[i].id] + [tasks[i].id]);
  }

  /** A refused dependency list has what it is refused for. */
  ghost predicate BadDeps(t: Task, seen: set<string>, why: Rejection) {
    match why
    case DuplicateDependency(id, dep) => id == t.id && exists i, j :: 0 <= i < j < |t.deps| && t.deps[i] == t.deps[j] == dep
    case UnknownDependency(id, dep) => id == t.id && dep in t.deps && dep !in seen
    case SelfDependency(id) => id == t.id && id in t.deps
    case _ => false
  }

  /** And so has a refused task list. */
  ghost predicate Truthful(tasks: seq<Task>, why: Rejection) {
    match why
    case DuplicateTask(id) => exists i, j :: 0 <= i < j < |tasks| && tasks[i].id == tasks[j].id == id
    case Cycle(path, back) =>
      && |path| > 0 && back in path && DependsOn(tasks, path[|path| - 1], back)
      && forall i: nat :: i + 1 < |path| ==> DependsAt(tasks, path, i)
    case _ => exists i, seen: set<string> ::
      0 <= i < |tasks| && BadDeps(tasks[i], seen, why) && forall d :: d in seen <==> Known(tasks, d)
  }

  method CheckIds(tasks: seq<Task>) returns (v: Verdict, seen: set<string>)
    ensures v.Ok? <==> DistinctIds(tasks)
    ensures v.Ok? ==> forall d :: d in seen <==> Known(tasks, d)
    ensures v.Reject? ==> Truthful(tasks, v.why)
  {
    seen := {};
    for i := 0 to |tasks|
      invariant DistinctIds(tasks[..i])
      invariant forall d :: d in seen <==> Known(tasks[..i], d)
    {
      assert forall k :: 0 <= k < i ==> tasks[..i][k] == tasks[k];
      if tasks[i].id in seen {
        var k :| 0 <= k < i && tasks[..i][k].id == tasks[i].id;
        assert tasks[k].id == tasks[i].id;
        return Reject(DuplicateTask(tasks[i].id)), seen;
      }
      forall k | 0 <= k < i
        ensures tasks[k].id != tasks[i].id
      {
        assert Known(tasks[..i], tasks[..i][k].id);
      }
      seen := seen + {tasks[i].id};
      forall d
        ensures d in seen <==> Known(tasks[..i + 1], d)
      {
        if d == tasks[i].id {
          assert tasks[..i + 1][i].id == d;
        } else if k :| 0 <= k < i && tasks[..i][k].id == d {
          assert tasks[..i + 1][k].id == d;
        }
      }
    }
    assert tasks[..|tasks|] == tasks;
    v := Ok;
  }

  ghost predicate Holds(deps: seq<string>, d: string) {
    exists k :: 0 <= k < |deps| && deps[k] == d
  }

  lemma RepeatIsSeen(front: seq<string>, d: string)
    requires NoRepeats(front)
    ensures NoRepeats(front + [d]) <==> !Holds(front, d)
  {
    var deps := front + [d];
    if Holds(front, d) {
      var k :| 0 <= k < |front| && front[k] == d;
      assert deps[k] == deps[|front|];
    }
  }

  lemma RepeatsStay(deps: seq<string>, n: nat)
    requires n <= |deps| && !NoRepeats(deps[..n])
    ensures !NoRepeats(deps)
  {
    var i, j :| 0 <= i < j < n && deps[..n][i] == deps[..n][j];
    assert deps[i] == deps[j];
  }

  method CheckDepsOf(t: Task, seen: set<string>) returns (v: Verdict)
    ensures v.Ok? <==> NoRepeats(t.deps) && t.id !in t.deps && forall d :: d in t.deps ==> d in seen
    ensures v.Reject? ==> BadDeps(t, seen, v.why)
  {
    var seenDeps := {};
    ghost var done: seq<string> := [];
    for i := 0 to |t.deps|
      invariant done == t.deps[..i] && NoRepeats(done)
      invariant forall d :: d in seenDeps <==> Holds(done, d)
      invariant forall k :: 0 <= k < i ==> t.deps[k] in seen && t.deps[k] != t.id
    {
      var dep := t.deps[i];
      assert dep in t.deps;
      RepeatIsSeen(done, dep);
      if dep in seenDeps {
        assert t.deps[..i + 1] == done + [dep];
        RepeatsStay(t.deps, i + 1);
        ghost var k :| 0 <= k < i && done[k] == dep;
        assert t.deps[k] == t.deps[i] == dep;
        return Reject(DuplicateDependency(t.id, dep));
      }
      HoldsOneMore(done, dep);
      done := done + [dep];
      seenDeps := seenDeps + {dep};
      if dep !in seen {
        return Reject(UnknownDependency(t.id, dep));
      }
      if dep == t.id {
        return Reject(SelfDependency(t.id));
      }
    }
    assert done == t.deps;
    v := Ok;
  }

  lemma HoldsOneMore(front: seq<string>, dep: string)
    ensures forall d :: Holds(front + [dep], d) <==> Holds(front, d) || d == dep
  {
    forall d
      ensures Holds(front + [dep], d) <==> Holds(front, d) || d == dep
    {
      if Holds(front, d) {
        var k :| 0 <= k < |front| && front[k] == d;
        assert (front + [dep])[k] == d;
      }
      if d == dep {
        assert (front + [dep])[|front|] == d;
      }
    }
  }

  lemma FoundIsTruthful(tasks: seq<Task>, r: CycleDetection.Outcome)
    requires DistinctIds(tasks) && CycleDetection.ClosesPath(Adjacency(tasks), r)
    ensures Truthful(tasks, Cycle(r.path, r.back))
  {
    EdgeIsDependency(tasks, r.path[|r.path| - 1], r.back);
    forall i: nat | i + 1 < |r.path|
      ensures DependsAt(tasks, r.path, i)
    {
      assert StepAt(Adjacency(tasks), r.path, i);
      EdgeIsDependency(tasks, r.path[i], r.path[i + 1]);
    }
  }

  /** A task list passes exactly when ids are distinct, dependencies known and unrepeated, and no cycle exists. */
  method CheckDependencies(tasks: seq<Task>) returns (v: Verdict)
    ensures v.Ok? <==> Accepted(tasks)
    ensures v.Reject? ==> Truthful(tasks, v.why)
  {
    var seen: set<string>;
    v, seen := CheckIds(tasks);
    if v.Reject? {
      return;
    }
    for i := 0 to |tasks|
      invariant forall k :: 0 <= k < i ==> NoRepeats(tasks[k].deps) && forall d :: d in tasks[k].deps ==> d in seen
    {
      v := CheckDepsOf(tasks[i], seen);
      if v.Reject? {
        if tasks[i].id in tasks[i].deps {
          SelfDependencyIsCycle(tasks, i);
        }
        return;
      }
    }
    var r := CycleDetection.DetectCycle(tasks);
    if r.Found? {
      FoundIsTruthful(tasks, r);
    }
    v := if r.Found? then Reject(Cycle(r.path, r.back)) else Ok;
  }
}
