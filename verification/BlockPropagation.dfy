/**
 Block propagation inside one run, and why a run never wedges
 (internal/scheduler/scheduler.go, processRun and taskGate).
 */
module BlockPropagation {
  import opened TaskModel
  import opened DagGraph
  import opened DependencyChecks

  type Rows = map<string, TaskState>

  /** The states a task's gate looks at; a missing row counts as not yet expanded. */
  function DepStates(t: Task, rows: Rows): seq<TaskState> {
    seq(|t.deps|, i requires 0 <= i < |t.deps| => if t.deps[i] in rows then rows[t.deps[i]] else Unexpanded)
  }

  ghost predicate HasSucceeded(d: string, rows: Rows) {
    d in rows && rows[d] == Success
  }

  ghost predicate WasSkipped(d: string, rows: Rows) {
    d in rows && rows[d] == Skipped
  }

  ghost predicate HasFailed(d: string, rows: Rows) {
    d in rows && rows[d] in {Failed, UpstreamFailed, TaskState.Cancelled, TimedOut}
  }

  ghost predicate HasEnded(d: string, rows: Rows) {
    HasSucceeded(d, rows) || WasSkipped(d, rows) || HasFailed(d, rows)
  }

  /** What each rule asks of the rows of the dependencies a task lists before it may start. */
  ghost predicate GateOpen(t: Task, rows: Rows) {
    t.deps == [] ||
    match t.rule
    case AllSuccess => forall d :: d in t.deps ==> HasSucceeded(d, rows)
    case AllDone => forall d :: d in t.deps ==> HasEnded(d, rows)
    case OneSuccess => exists d :: d in t.deps && HasSucceeded(d, rows)
    case OneFailed => exists d :: d in t.deps && HasFailed(d, rows)
    case AllFailed => forall d :: d in t.deps ==> HasFailed(d, rows)
    case NoneFailed => forall d :: d in t.deps ==> HasSucceeded(d, rows) || WasSkipped(d, rows)
  }

  /** And when those rows mean that it never will. */
  ghost predicate GateShut(t: Task, rows: Rows) {
    t.deps != [] &&
    match t.rule
    case AllSuccess => exists d :: d in t.deps && (HasFailed(d, rows) || WasSkipped(d, rows))
    case AllDone => false
    case OneSuccess => forall d :: d in t.deps ==> HasFailed(d, rows) || WasSkipped(d, rows)
    case OneFailed => forall d :: d in t.deps ==> HasSucceeded(d, rows) || WasSkipped(d, rows)
    case AllFailed => exists d :: d in t.deps && (HasSucceeded(d, rows) || WasSkipped(d, rows))
    case NoneFailed => exists d :: d in t.deps && HasFailed(d, rows)
  }

  lemma AllOverDeps(t: Task, rows: Rows)
    ensures AllFinished(DepStates(t, rows)) <==> forall d :: d in t.deps ==> HasEnded(d, rows)
    ensures (forall i :: 0 <= i < |t.deps| ==> DepStates(t, rows)[i] == Success)
      <==> forall d :: d in t.deps ==> HasSucceeded(d, rows)
    ensures (forall i :: 0 <= i < |t.deps| ==> DepStates(t, rows)[i].IsFailure())
      <==> forall d :: d in t.deps ==> HasFailed(d, rows)
  {
    forall i | 0 <= i < |t.deps|
      ensures t.deps[i] in t.deps && (DepStates(t, rows)[i].IsTerminal() <==> HasEnded(t.deps[i], rows))
    {
    }
  }

  lemma SomeOverDeps(t: Task, rows: Rows)
    ensures SomeFailure(DepStates(t, rows)) <==> exists d :: d in t.deps && HasFailed(d, rows)
    ensures Success in DepStates(t, rows) <==> exists d :: d in t.deps && HasSucceeded(d, rows)
    ensures Skipped in DepStates(t, rows) <==> exists d :: d in t.deps && WasSkipped(d, rows)
  {
    forall i | 0 <= i < |t.deps|
      ensures t.deps[i] in t.deps && DepStates(t, rows)[i] in DepStates(t, rows)
    {
    }
  }

  /** The tallies over the collected states come to exactly that, dependency by dependency. */
  lemma GateReadsEveryDep(t: Task, rows: Rows)
    ensures Ready(t.rule, DepStates(t, rows)) <==> GateOpen(t, rows)
    ensures Blocked(t.rule, DepStates(t, rows)) <==> GateShut(t, rows)
  {
    AllOverDeps(t, rows);
    SomeOverDeps(t, rows);
  }

  ghost predicate Stuck(t: Task, rows: Rows) {
    t.id in rows && rows[t.id] == Scheduled && GateShut(t, rows)
  }

  /** Nothing left to propagate. */
  ghost predicate Settled(tasks: seq<Task>, rows: Rows) {
    forall i :: 0 <= i < |tasks| ==> !Stuck(tasks[i], rows)
  }

  /** `after` differs from `before` only in scheduled rows that became upstream_failed. */
  ghost predicate Extends(before: Rows, after: Rows) {
    && before.Keys == after.Keys
    && forall k :: k in before ==>
         after[k] == before[k] || (before[k] == Scheduled && after[k] == UpstreamFailed)
  }

  /** `after` is the smallest settled extension of `before`. */
  ghost predicate LeastSettled(tasks: seq<Task>, before: Rows, after: Rows) {
    && Extends(before, after)
    && Settled(tasks, after)
    && forall other :: Extends(before, other) && Settled(tasks, other) ==> Extends(after, other)
  }

  lemma GateProgresses(t: Task, before: Rows, after: Rows)
    requires Extends(before, after)
    ensures Progressed(DepStates(t, before), DepStates(t, after))
  {
  }

  /** Whatever a settled extension leaves scheduled can never be found stuck on the way there. */
  lemma StuckIsForced(tasks: seq<Task>, i: nat, now: Rows, other: Rows)
    requires i < |tasks| && Stuck(tasks[i], now)
    requires Extends(now, other) && Settled(tasks, other)
    ensures Extends(now[tasks[i].id := UpstreamFailed], other)
  {
    GateReadsEveryDep(tasks[i], now);
    GateReadsEveryDep(tasks[i], other);
    GateProgresses(tasks[i], now, other);
    VerdictNeverReverses(tasks[i].rule, DepStates(tasks[i], now), DepStates(tasks[i], other));
    assert !Stuck(tasks[i], other);
  }

  /** The outcome does not depend on the order (or repetition) in which the tasks are listed. */
  lemma OrderDoesNotMatter(tasks: seq<Task>, shuffled: seq<Task>, before: Rows, one: Rows, two: Rows)
    requires forall t :: t in tasks <==> t in shuffled
    requires LeastSettled(tasks, before, one) && LeastSettled(shuffled, before, two)
    ensures one == two
  {
    assert Settled(shuffled, one) by {
      forall i | 0 <= i < |shuffled|
        ensures !Stuck(shuffled[i], one)
      {
        assert shuffled[i] in tasks;
        var j :| 0 <= j < |tasks| && tasks[j] == shuffled[i];
        assert !Stuck(tasks[j], one);
      }
    }
    assert Settled(tasks, two) by {
      forall i | 0 <= i < |tasks|
        ensures !Stuck(tasks[i], two)
      {
        assert tasks[i] in shuffled;
        var j :| 0 <= j < |shuffled| && shuffled[j] == tasks[i];
        assert !Stuck(shuffled[j], two);
      }
    }
    assert Extends(one, two) && Extends(two, one);
  }

  ghost function ScheduledKeys(rows: Rows): set<string> {
    set k | k in rows && rows[k] == Scheduled
  }

  class RunState {
    var rows: Rows

    constructor (initial: Rows)
      ensures rows == initial
    {
      rows := initial;
    }

    method TaskGate(t: Task) returns (ready: bool, blocked: bool)
      ensures ready <==> GateOpen(t, rows)
      ensures blocked <==> GateShut(t, rows)
    {
      GateReadsEveryDep(t, rows);
      ready, blocked := EvalTriggerRule(t.rule, DepStates(t, rows));
    }

    /** One sweep over the task list. */
    method Sweep(tasks: seq<Task>, ghost before: Rows) returns (changed: bool)
      requires Between(tasks, before, rows)
      modifies this
      ensures Between(tasks, before, rows)
      ensures changed ==> ScheduledKeys(rows) < ScheduledKeys(old(rows))
      ensures !changed ==> rows == old(rows) && Settled(tasks, rows)
    {
      changed := false;
      for i := 0 to |tasks|
        invariant Between(tasks, before, rows)
        invariant changed ==> ScheduledKeys(rows) < ScheduledKeys(old(rows))
        invariant !changed ==> rows == old(rows) && Settled(tasks[..i], rows)
      {
        var t := tasks[i];
        if t.id in rows && rows[t.id] == Scheduled {
          var _, blocked := TaskGate(t);
          if blocked {
            BlockingIsForced(tasks, i, before, rows);
            FewerScheduled(rows, t.id);
            rows := rows[t.id := UpstreamFailed];
            changed := true;
          }
        }
      }
      assert tasks[..|tasks|] == tasks;
    }

    method PropagateBlocks(tasks: seq<Task>)
      modifies this
      ensures LeastSettled(tasks, old(rows), rows)
      ensures rows.Keys == old(rows).Keys
      ensures forall k :: k in old(rows) ==>
        rows[k] == old(rows)[k] || (old(rows)[k] == Scheduled && rows[k] == UpstreamFailed)
    {
      ghost var before := rows;
      var changed := true;
      while changed
        invariant Between(tasks, before, rows)
        invariant !changed ==> Settled(tasks, rows)
        decreases ScheduledKeys(rows), changed
      {
        changed := Sweep(tasks, before);
      }
    }
  }

  /** Some blocks have been propagated, and none that was not forced. */
  ghost predicate Between(tasks: seq<Task>, before: Rows, rows: Rows) {
    && Extends(before, rows)
    && forall other :: Extends(before, other) && Settled(tasks, other) ==> Extends(rows, other)
  }

  lemma BlockingIsForced(tasks: seq<Task>, i: nat, before: Rows, rows: Rows)
    requires i < |tasks| && Between(tasks, before, rows) && Stuck(tasks[i], rows)
    ensures Between(tasks, before, rows[tasks[i].id := UpstreamFailed])
  {
    forall other | Extends(before, other) && Settled(tasks, other)
      ensures Extends(rows[tasks[i].id := UpstreamFailed], other)
    {
      StuckIsForced(tasks, i, rows, other);
    }
  }

  lemma FewerScheduled(rows: Rows, id: string)
    requires id in rows && rows[id] == Scheduled
    ensures ScheduledKeys(rows[id := UpstreamFailed]) < ScheduledKeys(rows)
  {
    assert id in ScheduledKeys(rows) && id !in ScheduledKeys(rows[id := UpstreamFailed]);
    assert forall k :: k in ScheduledKeys(rows[id := UpstreamFailed]) ==> k in ScheduledKeys(rows);
  }

  /** Every task has its row, and every row a real state. */
  ghost predicate Instantiated(tasks: seq<Task>, rows: Rows) {
    forall i :: 0 <= i < |tasks| ==> tasks[i].id in rows && rows[tasks[i].id] != Unexpanded
  }

  ghost predicate InFlight(s: TaskState) {
    s.Queued? || s.Running? || s.UpForRetry?
  }

  /**
   Once propagation has settled, an accepted run is finished, or has an attempt in
   flight, or has a scheduled task whose rule says ready: it is never wedged.
   */
  lemma RunNeverWedges(tasks: seq<Task>, before: Rows, rows: Rows)
    requires Accepted(tasks) && Instantiated(tasks, before)
    requires LeastSettled(tasks, before, rows)
    ensures Instantiated(tasks, rows)
    ensures
      || (forall i :: 0 <= i < |tasks| ==> rows[tasks[i].id].IsTerminal())
      || (exists i :: 0 <= i < |tasks| && InFlight(rows[tasks[i].id]))
      || (exists i :: 0 <= i < |tasks| && rows[tasks[i].id] == Scheduled
                      && GateOpen(tasks[i], rows))
  {
    if forall i :: 0 <= i < |tasks| ==> !InFlight(rows[tasks[i].id]) {
      var waiting := set i | 0 <= i < |tasks| && rows[tasks[i].id] == Scheduled :: tasks[i].id;
      if waiting != {} {
        if NoSink(Adjacency(tasks), waiting) {
          NoSinkMeansCycle(Adjacency(tasks), waiting);
        }
        var n :| n in waiting && !HasSuccessorIn(Adjacency(tasks), waiting, n);
        var i :| 0 <= i < |tasks| && rows[tasks[i].id] == Scheduled && tasks[i].id == n;
        SinkIsReady(tasks, rows, waiting, i);
      } else {
        forall i | 0 <= i < |tasks|
          ensures rows[tasks[i].id].IsTerminal()
        {
          var id := tasks[i].id;
          assert rows[id] == Scheduled ==> id in waiting;
          assert !InFlight(rows[tasks[i].id]);
        }
      }
    }
  }

  /** A scheduled task none of whose dependencies is still scheduled has only finished dependencies. */
  lemma SinkIsReady(tasks: seq<Task>, rows: Rows, waiting: set<string>, i: nat)
    requires DistinctIds(tasks) && KnownDeps(tasks) && Instantiated(tasks, rows)
    requires forall k :: 0 <= k < |tasks| ==> !InFlight(rows[tasks[k].id])
    requires forall k :: 0 <= k < |tasks| && rows[tasks[k].id] == Scheduled ==> tasks[k].id in waiting
    requires i < |tasks| && rows[tasks[i].id] == Scheduled && !Stuck(tasks[i], rows)
    requires !HasSuccessorIn(Adjacency(tasks), waiting, tasks[i].id)
    ensures GateOpen(tasks[i], rows)
  {
    var t := tasks[i];
    AdjacencyOf(tasks, i);
    forall d | 0 <= d < |t.deps|
      ensures DepStates(t, rows)[d].IsTerminal()
    {
      assert t.deps[d] in t.deps && Known(tasks, t.deps[d]);
      var j :| 0 <= j < |tasks| && tasks[j].id == t.deps[d];
      assert !InFlight(rows[tasks[j].id]);
      if rows[tasks[j].id] == Scheduled {
        assert tasks[j].id in waiting && Edge(Adjacency(tasks), t.id, tasks[j].id);
      }
    }
    VerdictIsDecided(t.rule, DepStates(t, rows));
    GateReadsEveryDep(t, rows);
  }
}
