/**
 Retrying a finished run: which tasks are reset, and what stays
 (internal/scheduler/scheduler.go, downstreamClosure, RetryTask, retryRunLocked,
 prepareRetryDefinition, clearAndReactivate).
 */
module Retry {
  import opened TaskModel
  import opened DagGraph

  /** `b` lists `a` as a dependency. */
  ghost predicate DependsOn(tasks: seq<Task>, b: string, a: string) {
    exists i :: 0 <= i < |tasks| && tasks[i].id == b && a in tasks[i].deps
  }

  /** The inverted graph: edges run from a task to the tasks that depend on it. */
  ghost predicate IsDependents(g: Graph, tasks: seq<Task>) {
    forall a, b :: Edge(g, a, b) <==> DependsOn(tasks, b, a)
  }

  ghost predicate Follows(tasks: seq<Task>, p: seq<string>, i: nat)
    requires i + 1 < |p|
  {
    DependsOn(tasks, p[i + 1], p[i])
  }

  /** Each element of the chain after the first lists the one before it as a dependency. */
  ghost predicate IsChain(tasks: seq<Task>, p: seq<string>, a: string, b: string) {
    && |p| > 0 && p[0] == a && p[|p| - 1] == b
    && forall i: nat :: i + 1 < |p| ==> Follows(tasks, p, i)
  }

  /** `b` is `a` or lies anywhere downstream of it. */
  ghost predicate Downstream(tasks: seq<Task>, a: string, b: string) {
    exists p :: IsChain(tasks, p, a, b)
  }

  lemma ReachesIsDownstream(g: Graph, tasks: seq<Task>, a: string, b: string)
    requires IsDependents(g, tasks)
    ensures Reaches(g, a, b) <==> Downstream(tasks, a, b)
  {
    if p :| IsPath(g, p, a, b) {
      forall i: nat | i + 1 < |p|
        ensures Follows(tasks, p, i)
      {
        assert StepAt(g, p, i);
      }
      assert IsChain(tasks, p, a, b);
    }
    if p :| IsChain(tasks, p, a, b) {
      forall i: nat | i + 1 < |p|
        ensures StepAt(g, p, i)
      {
        assert Follows(tasks, p, i);
      }
      assert IsPath(g, p, a, b);
    }
  }

  method AddDependents(g: Graph, t: Task) returns (h: Graph)
    ensures forall a, b :: Edge(h, a, b) <==> Edge(g, a, b) || (b == t.id && a in t.deps)
  {
    h := g;
    for j := 0 to |t.deps|
      invariant forall a, b :: Edge(h, a, b) <==> Edge(g, a, b) || (b == t.id && a in t.deps[..j])
    {
      ghost var h0 := h;
      var dep := t.deps[j];
      h := h[dep := Succ(h, dep) + [t.id]];
      forall a, b
        ensures Edge(h, a, b) <==> Edge(g, a, b) || (b == t.id && a in t.deps[..j + 1])
      {
        assert t.deps[..j + 1] == t.deps[..j] + [dep];
        assert Edge(h, a, b) <==> Edge(h0, a, b) || (a == dep && b == t.id);
      }
    }
    assert t.deps[..|t.deps|] == t.deps;
  }

  method Dependents(tasks: seq<Task>) returns (g: Graph)
    ensures IsDependents(g, tasks)
  {
    g := map[];
    for i := 0 to |tasks|
      invariant IsDependents(g, tasks[..i])
    {
      ghost var g0 := g;
      g := AddDependents(g, tasks[i]);
      forall a, b
        ensures Edge(g, a, b) <==> DependsOn(tasks[..i + 1], b, a)
      {
        DependsOnSnoc(tasks, i, a, b);
        assert Edge(g0, a, b) <==> DependsOn(tasks[..i], b, a);
      }
    }
    assert tasks[..|tasks|] == tasks;
  }

  lemma DependsOnSnoc(tasks: seq<Task>, i: nat, a: string, b: string)
    requires i < |tasks|
    ensures DependsOn(tasks[..i + 1], b, a) <==>
            DependsOn(tasks[..i], b, a) || (tasks[i].id == b && a in tasks[i].deps)
  {
    var more := tasks[..i + 1];
    if DependsOn(tasks[..i], b, a) {
      var k :| 0 <= k < i && tasks[..i][k].id == b && a in tasks[..i][k].deps;
      assert more[k].id == b && a in more[k].deps;
    }
    if tasks[i].id == b && a in tasks[i].deps {
      assert more[i].id == b && a in more[i].deps;
    }
    if DependsOn(more, b, a) {
      var k :| 0 <= k < |more| && more[k].id == b && a in more[k].deps;
      if k < i {
        assert tasks[..i][k].id == b && a in tasks[..i][k].deps;
      }
    }
  }

  /** The work queue of the source: a node may be queued several times but is expanded once. */
  method DownstreamClosure(tasks: seq<Task>, taskID: string) returns (closure: set<string>)
    ensures forall b :: b in closure <==> Downstream(tasks, taskID, b)
  {
    var g := Dependents(tasks);
    ghost var nodes := {taskID} + set i | 0 <= i < |tasks| :: tasks[i].id;
    closure := {};
    var queue := [taskID];
    ReachesItself(g, taskID);
    while |queue| > 0
      invariant forall b :: b in closure ==> b in nodes && Reaches(g, taskID, b)
      invariant forall b :: b in queue ==> b in nodes && Reaches(g, taskID, b)
      invariant taskID in closure || taskID in queue
      invariant forall n, m {:trigger Edge(g, n, m)} :: n in closure && Edge(g, n, m) ==> m in closure || m in queue
      decreases nodes - closure, |queue|
    {
      var id := queue[0];
      ghost var queued := queue;
      queue := queue[1..];
      assert forall b :: b in queued ==> b == id || b in queue;
      if id !in closure {
        closure := closure + {id};
        forall m | m in Succ(g, id)
          ensures m in nodes && Reaches(g, taskID, m)
        {
          assert Edge(g, id, m) && DependsOn(tasks, m, id);
          ReachesFurther(g, taskID, id, m);
        }
        queue := queue + Succ(g, id);
      }
    }
    forall b
      ensures b in closure <==> Downstream(tasks, taskID, b)
    {
      ReachesIsDownstream(g, tasks, taskID, b);
      if Reaches(g, taskID, b) {
        ClosedHoldsReachable(g, closure, taskID, b);
      }
    }
  }

  lemma {:induction false} DownstreamTransitive(tasks: seq<Task>, a: string, b: string, c: string)
    requires Downstream(tasks, a, b) && Downstream(tasks, b, c)
    ensures Downstream(tasks, a, c)
  {
    var p :| IsChain(tasks, p, a, b);
    var q :| IsChain(tasks, q, b, c);
    var r := p + q[1..];
    forall i: nat | i + 1 < |r|
      ensures Follows(tasks, r, i)
    {
      if i + 1 < |p| {
        assert Follows(tasks, p, i);
      } else {
        assert Follows(tasks, q, i + 1 - |p|);
      }
    }
    assert IsChain(tasks, r, a, c);
  }

  type Rows = map<string, TaskState>

  /** The outcomes a run retry looks for. */
  predicate Unsuccessful(s: TaskState) {
    s.Failed? || s.UpstreamFailed? || s.Cancelled? || s.TimedOut?
  }

  function Ids(tasks: seq<Task>): set<string> {
    set i | 0 <= i < |tasks| :: tasks[i].id
  }

  /** At or below one of `roots`. */
  ghost predicate Below(tasks: seq<Task>, roots: set<string>, id: string) {
    exists u :: u in roots && Downstream(tasks, u, id)
  }

  ghost function UnsuccessfulIds(tasks: seq<Task>, rows: Rows): set<string> {
    set u | u in rows && u in Ids(tasks) && Unsuccessful(rows[u])
  }

  /** The rows of a run whose tasks at or below `roots` were cleared; missing rows are created. */
  ghost function Cleared(tasks: seq<Task>, rows: Rows, roots: set<string>): Rows {
    map id | id in rows.Keys + Ids(tasks) ::
      if id in rows && !(id in Ids(tasks) && Below(tasks, roots, id)) then rows[id] else Scheduled
  }

  /**
   A task of the DAG that keeps a recorded outcome has no reset task above it:
   otherwise it would have been reset too.
   */
  lemma KeptIsNotBelowReset(tasks: seq<Task>, rows: Rows, roots: set<string>, b: string)
    requires b in Ids(tasks) && b in rows && rows[b] != Scheduled
    requires Cleared(tasks, rows, roots)[b] == rows[b]
    ensures forall a :: Below(tasks, roots, a) ==> !Downstream(tasks, a, b)
  {
    forall a | Below(tasks, roots, a) && Downstream(tasks, a, b)
      ensures false
    {
      var u :| u in roots && Downstream(tasks, u, a);
      DownstreamTransitive(tasks, u, a, b);
    }
  }

  /** After a run retry every row still holding an unsuccessful outcome belongs to a task no longer in the DAG. */
  lemma NoUnsuccessfulTaskSurvives(tasks: seq<Task>, rows: Rows, id: string)
    requires id in Ids(tasks)
    ensures !Unsuccessful(Cleared(tasks, rows, UnsuccessfulIds(tasks, rows))[id])
  {
    if id in UnsuccessfulIds(tasks, rows) {
      assert IsChain(tasks, [id], id, id);
      assert Below(tasks, UnsuccessfulIds(tasks, rows), id);
    }
  }

  ghost predicate IsTask(tasks: seq<Task>, id: string) {
    exists i :: 0 <= i < |tasks| && tasks[i].id == id
  }

  /** A task of the DAG whose recorded outcome a run retry is for. */
  ghost predicate WentWrong(tasks: seq<Task>, rows: Rows, u: string) {
    IsTask(tasks, u) && u in rows && rows[u] in {Failed, UpstreamFailed, TaskState.Cancelled, TimedOut}
  }

  lemma UnsuccessfulWentWrong(tasks: seq<Task>, rows: Rows, u: string)
    ensures u in Ids(tasks) <==> IsTask(tasks, u)
    ensures u in UnsuccessfulIds(tasks, rows) <==> WentWrong(tasks, rows, u)
  {
  }

  /**
   A run retry resets exactly the tasks of the DAG at which something went wrong and
   everything downstream of them, creates the rows that are missing, and keeps every other row.
   */
  lemma RunRetryResetsExactly(tasks: seq<Task>, rows: Rows, id: string)
    requires id in rows || IsTask(tasks, id)
    ensures
      var after := Cleared(tasks, rows, UnsuccessfulIds(tasks, rows));
      && id in after
      && after[id] == if id in rows && !(IsTask(tasks, id) && exists u :: WentWrong(tasks, rows, u) && Downstream(tasks, u, id))
                      then rows[id] else Scheduled
  {
    UnsuccessfulWentWrong(tasks, rows, id);
    if u :| WentWrong(tasks, rows, u) && Downstream(tasks, u, id) {
      UnsuccessfulWentWrong(tasks, rows, u);
    }
    if Below(tasks, UnsuccessfulIds(tasks, rows), id) {
      var u :| u in UnsuccessfulIds(tasks, rows) && Downstream(tasks, u, id);
      UnsuccessfulWentWrong(tasks, rows, u);
    }
  }

  /** A task retry resets exactly that task and everything downstream of it. */
  lemma TaskRetryResetsExactly(tasks: seq<Task>, rows: Rows, taskID: string, id: string)
    requires id in rows || IsTask(tasks, id)
    ensures
      var after := Cleared(tasks, rows, {taskID});
      && id in after
      && after[id] == if id in rows && !(IsTask(tasks, id) && Downstream(tasks, taskID, id)) then rows[id] else Scheduled
  {
    UnsuccessfulWentWrong(tasks, rows, id);
    assert taskID in {taskID};
  }

  /** `ids` is everything in the DAG at or below `roots`. */
  ghost predicate Covers(dag: seq<Task>, roots: set<string>, ids: set<string>) {
    forall id :: id in ids <==> id in Ids(dag) && Below(dag, roots, id)
  }

  lemma CoversOneMore(dag: seq<Task>, roots: set<string>, ids: set<string>, u: string, closure: set<string>)
    requires Covers(dag, roots, ids) && u in Ids(dag) && forall id :: id in closure <==> Downstream(dag, u, id)
    ensures Covers(dag, roots + {u}, ids + closure * Ids(dag))
  {
    forall id
      ensures id in ids + closure * Ids(dag) <==> id in Ids(dag) && Below(dag, roots + {u}, id)
    {
      BelowOneMore(dag, roots, u, id);
    }
  }

  lemma RootsAreCovered(dag: seq<Task>, roots: set<string>, ids: set<string>)
    requires Covers(dag, roots, ids) && roots <= Ids(dag)
    ensures roots <= ids && (roots == {} ==> ids == {})
  {
    forall u | u in roots
      ensures u in ids
    {
      assert IsChain(dag, [u], u, u);
      assert Below(dag, roots, u);
    }
    if roots == {} {
      assert forall id :: !Below(dag, roots, id);
      assert ids == {};
    }
  }

  /** The set a run retry resets: everything in the DAG at or below an unsuccessful task. */
  method RetryIds(dag: seq<Task>, rows: Rows) returns (ids: set<string>)
    ensures Covers(dag, UnsuccessfulIds(dag, rows), ids)
    ensures ids == {} <==> UnsuccessfulIds(dag, rows) == {}
  {
    var valid := Ids(dag);
    ids := {};
    var todo := rows.Keys;
    ghost var roots := {};
    while todo != {}
      invariant todo <= rows.Keys
      invariant roots == UnsuccessfulIds(dag, rows) - todo
      invariant Covers(dag, roots, ids)
      decreases todo
    {
      var u :| u in todo;
      todo := todo - {u};
      if u in valid && Unsuccessful(rows[u]) {
        var closure := DownstreamClosure(dag, u);
        CoversOneMore(dag, roots, ids, u, closure);
        roots := roots + {u};
        ids := ids + closure * valid;
      }
    }
    assert roots == UnsuccessfulIds(dag, rows);
    RootsAreCovered(dag, roots, ids);
  }

  lemma BelowOneMore(tasks: seq<Task>, roots: set<string>, u: string, id: string)
    ensures Below(tasks, roots + {u}, id) <==> Below(tasks, roots, id) || Downstream(tasks, u, id)
  {
    assert u in roots + {u};
    assert forall v :: v in roots + {u} <==> v in roots || v == u;
  }

  datatype RetryOutcome = Retried | StillActive | DagNotActive | NothingToRetry | NoSuchTask

  class Run {
    var state: RunState
    var rows: Rows

    constructor (s: RunState, r: Rows)
      ensures state == s && rows == r
    {
      state, rows := s, r;
    }

    /** prepareRetryDefinition followed by clearAndReactivate. */
    method Reactivate(tasks: seq<Task>, ids: set<string>)
      requires state.IsTerminal()
      modifies this
      ensures state == RunRunning
      ensures rows.Keys == old(rows).Keys + Ids(tasks)
      ensures forall id :: id in rows ==>
        rows[id] == if id in old(rows) && id !in ids then old(rows)[id] else Scheduled
    {
      for i := 0 to |tasks|
        invariant state == old(state)
        invariant rows.Keys == old(rows).Keys + Ids(tasks[..i])
        invariant forall id :: id in rows ==> rows[id] == if id in old(rows) then old(rows)[id] else Scheduled
      {
        assert tasks[..i + 1][i].id in Ids(tasks[..i + 1]);
        assert Ids(tasks[..i + 1]) == Ids(tasks[..i]) + {tasks[i].id} by {
          IdsSnoc(tasks, i);
        }
        if tasks[i].id !in rows {
          rows := rows[tasks[i].id := Scheduled];
        }
      }
      assert tasks[..|tasks|] == tasks;
      ghost var created := rows;
      var todo := ids;
      while todo != {}
        invariant todo <= ids && state == old(state)
        invariant rows.Keys == created.Keys
        invariant forall id :: id in rows ==> rows[id] == if id in ids - todo then Scheduled else created[id]
        decreases todo
      {
        var id :| id in todo;
        todo := todo - {id};
        if id in rows {
          rows := rows[id := Scheduled];
        }
      }
      state := RunRunning;
    }

    method RetryTask(dag: seq<Task>, dagActive: bool, taskID: string) returns (r: RetryOutcome)
      modifies this
      ensures r.StillActive? <==> !old(state).IsTerminal()
      ensures r.DagNotActive? <==> old(state).IsTerminal() && !dagActive
      ensures r.NoSuchTask? <==> old(state).IsTerminal() && dagActive && !(taskID in old(rows) && taskID in Ids(dag))
      ensures !r.NothingToRetry?
      ensures r.Retried? ==> state == RunRunning && rows == Cleared(dag, old(rows), {taskID})
      ensures !r.Retried? ==> state == old(state) && rows == old(rows)
    {
      if !state.IsTerminal() {
        return StillActive;
      }
      if !dagActive {
        return DagNotActive;
      }
      var valid := Ids(dag);
      if !(taskID in rows && taskID in valid) {
        return NoSuchTask;
      }
      var closure := DownstreamClosure(dag, taskID);
      Reactivate(dag, closure * valid);
      assert forall id :: Below(dag, {taskID}, id) <==> id in closure;
      r := Retried;
    }

    method RetryRun(dag: seq<Task>, dagActive: bool) returns (r: RetryOutcome)
      modifies this
      ensures r.StillActive? <==> !old(state).IsTerminal()
      ensures r.DagNotActive? <==> old(state).IsTerminal() && !dagActive
      ensures r.NothingToRetry? <==>
        old(state).IsTerminal() && dagActive && UnsuccessfulIds(dag, old(rows)) == {}
      ensures !r.NoSuchTask?
      ensures r.Retried? ==> state == RunRunning && rows == Cleared(dag, old(rows), UnsuccessfulIds(dag, old(rows)))
      ensures !r.Retried? ==> state == old(state) && rows == old(rows)
    {
      if !state.IsTerminal() {
        return StillActive;
      }
      if !dagActive {
        return DagNotActive;
      }
      var ids := RetryIds(dag, rows);
      if |ids| == 0 {
        return NothingToRetry;
      }
      Reactivate(dag, ids);
      r := Retried;
    }
  }

  lemma IdsSnoc(tasks: seq<Task>, i: nat)
    requires i < |tasks|
    ensures Ids(tasks[..i + 1]) == Ids(tasks[..i]) + {tasks[i].id}
  {
    forall id | id in Ids(tasks[..i]) + {tasks[i].id}
      ensures id in Ids(tasks[..i + 1])
    {
      if id in Ids(tasks[..i]) {
        var k :| 0 <= k < i && tasks[..i][k].id == id;
        assert tasks[..i + 1][k].id == id;
      } else {
        assert tasks[..i + 1][i].id == id;
      }
    }
    forall id | id in Ids(tasks[..i + 1])
      ensures id in Ids(tasks[..i]) + {tasks[i].id}
    {
      var k :| 0 <= k < i + 1 && tasks[..i + 1][k].id == id;
      if k < i {
        assert tasks[..i][k].id == id;
      }
    }
  }
}
