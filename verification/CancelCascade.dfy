/**
 Cancelling a run, and through its sub-workflow tasks the runs below it
 (internal/scheduler/scheduler.go, cancelRunLocked and cancelAttempt).
 Store writes are taken to succeed; references between runs may form cycles.
 */
module CancelCascade {
  import opened TaskModel

  /** What a task instance's executor_ref names. */
  datatype TaskRef = NoRef | Attempt(name: string) | Child(run: string)

  datatype TaskRow = TaskRow(state: TaskState, ref: TaskRef)

  /** The store and the set of attempts the executor was told to kill. */
  datatype World = World(runs: map<string, RunState>, tasks: map<string, seq<TaskRow>>, killed: set<string>) {
    predicate Active(r: string) {
      r in runs && (runs[r] == RunQueued || runs[r] == RunRunning)
    }

    ghost predicate Valid() {
      runs.Keys == tasks.Keys
    }

    ghost function ActiveRuns(): set<string> {
      set r | r in runs && Active(r)
    }
  }

  datatype Outcome = Cancelled | NotFound | NotActive

  /** `a` still has an unfinished sub-workflow task that runs `b`. */
  ghost predicate Refers(w: World, a: string, b: string) {
    a in w.tasks && exists i ::
      0 <= i < |w.tasks[a]| && !w.tasks[a][i].state.IsTerminal() && w.tasks[a][i].ref == Child(b)
  }

  /** No active run outside `group` is referred to from inside. */
  ghost predicate ClosedUnder(w: World, group: set<string>) {
    forall a, b {:trigger Refers(w, a, b)} :: a in group && Refers(w, a, b) && w.Active(b) ==> b in group
  }

  /** `group` is the smallest set of active runs that holds `root` and all active runs it refers to, directly or not. */
  ghost predicate IsCascade(w: World, root: string, group: set<string>) {
    && root in group
    && (forall r :: r in group ==> w.Active(r))
    && ClosedUnder(w, group)
    && forall other {:trigger ClosedUnder(w, other)} :: root in other && ClosedUnder(w, other) ==> group <= other
  }

  function CancelRow(t: TaskRow): TaskRow {
    if t.state.IsTerminal() then t else t.(state := TaskState.Cancelled)
  }

  /** The first `n` rows cancelled, finished ones untouched. */
  function CancelRows(rows: seq<TaskRow>, n: nat): seq<TaskRow> {
    seq(|rows|, i requires 0 <= i < |rows| => if i < n then CancelRow(rows[i]) else rows[i])
  }

  /** Attempts among the first `n` rows that must be killed. */
  ghost function KillsIn(rows: seq<TaskRow>, n: nat): set<string> {
    set i | 0 <= i < |rows| && i < n && !rows[i].state.IsTerminal() && rows[i].ref.Attempt? :: rows[i].ref.name
  }

  ghost function Kills(w: World, group: set<string>): set<string> {
    set r, name | r in group && r in w.tasks && name in KillsIn(w.tasks[r], |w.tasks[r]|) :: name
  }

  /** The world with every run of `group` cancelled, together with its unfinished tasks. */
  ghost function CancelAll(w: World, group: set<string>): World {
    World(map r | r in w.runs :: if r in group then RunCancelled else w.runs[r],
          map r | r in w.tasks :: if r in group then CancelRows(w.tasks[r], |w.tasks[r]|) else w.tasks[r],
          w.killed + Kills(w, group))
  }

  /** Half way through one run: `group` is done, and of `root` the run itself and its first `n` tasks. */
  ghost function Partly(w: World, root: string, group: set<string>, n: nat): World {
    World(map r | r in w.runs :: if r == root || r in group then RunCancelled else w.runs[r],
          map r | r in w.tasks ::
            if r == root then CancelRows(w.tasks[r], n)
            else if r in group then CancelRows(w.tasks[r], |w.tasks[r]|) else w.tasks[r],
          w.killed + Kills(w, group) + if root in w.tasks then KillsIn(w.tasks[root], n) else {})
  }

  /** Task `i` of `root` is unfinished and runs an active run. */
  ghost predicate RefersAt(w: World, root: string, i: nat)
    requires root in w.tasks && i < |w.tasks[root]|
  {
    var t := w.tasks[root][i];
    !t.state.IsTerminal() && t.ref.Child? && w.Active(t.ref.run)
  }

  /** What the loop knows of the runs already swept up. */
  ghost predicate Swept(w: World, root: string, group: set<string>, n: nat) {
    && w.Valid() && w.Active(root) && root !in group
    && (forall r :: r in group ==> w.Active(r))
    && n <= |w.tasks[root]|
    && (forall i :: 0 <= i < n && RefersAt(w, root, i) ==> w.tasks[root][i].ref.run in group + {root})
    && (forall a, b {:trigger Refers(w, a, b)} :: a in group && Refers(w, a, b) && w.Active(b) ==> b in group + {root})
    && forall other {:trigger ClosedUnder(w, other)} :: root in other && ClosedUnder(w, other) ==> group <= other
  }

  /** A run that still refers in the half-way world referred to the same run at the start. */
  lemma PartlyRefers(w: World, root: string, group: set<string>, n: nat, a: string, b: string)
    requires w.Valid() && root in w.tasks && n <= |w.tasks[root]|
    requires Refers(Partly(w, root, group, n), a, b)
    ensures Refers(w, a, b)
    ensures a !in group || a == root
  {
    var p := Partly(w, root, group, n);
    var i :| 0 <= i < |p.tasks[a]| && !p.tasks[a][i].state.IsTerminal() && p.tasks[a][i].ref == Child(b);
    assert w.tasks[a][i].ref == Child(b) && !w.tasks[a][i].state.IsTerminal();
  }

  lemma PartlyKeepsRefers(w: World, root: string, group: set<string>, n: nat, a: string, b: string)
    requires w.Valid() && a != root && a !in group && Refers(w, a, b)
    ensures Refers(Partly(w, root, group, n), a, b)
  {
    var p := Partly(w, root, group, n);
    var i :| 0 <= i < |w.tasks[a]| && !w.tasks[a][i].state.IsTerminal() && w.tasks[a][i].ref == Child(b);
    assert p.tasks[a][i] == w.tasks[a][i];
  }

  ghost predicate ChildCascade(w: World, root: string, group: set<string>, n: nat, child: string, more: set<string>) {
    && Swept(w, root, group, n) && n < |w.tasks[root]|
    && !w.tasks[root][n].state.IsTerminal() && w.tasks[root][n].ref == Child(child)
    && IsCascade(Partly(w, root, group, n), child, more)
  }

  lemma AbsorbClosed(w: World, root: string, group: set<string>, n: nat, child: string, more: set<string>,
                     a: string, b: string)
    requires ChildCascade(w, root, group, n, child, more)
    requires a in more && Refers(w, a, b) && w.Active(b)
    ensures b in group + more + {root}
  {
    var p := Partly(w, root, group, n);
    assert p.Active(a);
    PartlyKeepsRefers(w, root, group, n, a, b);
    if b !in group && b != root {
      assert p.Active(b);
    }
  }

  lemma AbsorbLeast(w: World, root: string, group: set<string>, n: nat, child: string, more: set<string>,
                    other: set<string>)
    requires ChildCascade(w, root, group, n, child, more)
    requires root in other && ClosedUnder(w, other)
    ensures group + more <= other
  {
    var p := Partly(w, root, group, n);
    assert p.Active(child);
    assert Refers(w, root, child) && child in other;
    forall a, b {:trigger Refers(p, a, b)} | a in other && Refers(p, a, b) && p.Active(b)
      ensures b in other
    {
      PartlyRefers(w, root, group, n, a, b);
    }
    assert ClosedUnder(p, other);
  }

  lemma AbsorbWorld(w: World, root: string, group: set<string>, n: nat, more: set<string>)
    requires w.Valid() && root in w.tasks && n <= |w.tasks[root]|
    requires root !in more && more !! group
    ensures CancelAll(Partly(w, root, group, n), more) == Partly(w, root, group + more, n)
  {
    var p := Partly(w, root, group, n);
    KillsOfUntouched(w, p, more);
    KillsUnion(w, group, more);
    SameRuns(w, root, group, n, more);
    SameTasks(w, root, group, n, more);
  }

  lemma SameRuns(w: World, root: string, group: set<string>, n: nat, more: set<string>)
    requires w.Valid() && root in w.tasks && n <= |w.tasks[root]|
    ensures CancelAll(Partly(w, root, group, n), more).runs == Partly(w, root, group + more, n).runs
  {
  }

  lemma SameTasks(w: World, root: string, group: set<string>, n: nat, more: set<string>)
    requires w.Valid() && root in w.tasks && n <= |w.tasks[root]|
    requires root !in more && more !! group
    ensures CancelAll(Partly(w, root, group, n), more).tasks == Partly(w, root, group + more, n).tasks
  {
    var p := Partly(w, root, group, n);
    var c, q := CancelAll(p, more).tasks, Partly(w, root, group + more, n).tasks;
    forall r | r in w.tasks
      ensures c[r] == q[r]
    {
      if r in more {
        assert p.tasks[r] == w.tasks[r];
      }
    }
  }

  lemma KillsOfUntouched(w: World, p: World, more: set<string>)
    requires w.tasks.Keys == p.tasks.Keys
    requires forall r :: r in more && r in w.tasks ==> p.tasks[r] == w.tasks[r]
    ensures Kills(p, more) == Kills(w, more)
  {
  }

  lemma KillsUnion(w: World, a: set<string>, b: set<string>)
    ensures Kills(w, a + b) == Kills(w, a) + Kills(w, b)
  {
  }

  /** Sweeping up one more child: its own cascade joins the group. */
  lemma Absorb(w: World, root: string, group: set<string>, n: nat, child: string, more: set<string>)
    requires ChildCascade(w, root, group, n, child, more)
    ensures root !in more && more !! group && child in more
    ensures Swept(w, root, group + more, n)
    ensures CancelAll(Partly(w, root, group, n), more) == Partly(w, root, group + more, n)
  {
    var p := Partly(w, root, group, n);
    assert forall r :: r in more ==> p.Active(r) && w.Active(r) && r != root && r !in group;
    AbsorbWorld(w, root, group, n, more);
    forall a, b {:trigger Refers(w, a, b)} | a in group + more && Refers(w, a, b) && w.Active(b)
      ensures b in group + more + {root}
    {
      if a in more {
        AbsorbClosed(w, root, group, n, child, more, a, b);
      }
    }
    forall other {:trigger ClosedUnder(w, other)} | root in other && ClosedUnder(w, other)
      ensures group + more <= other
    {
      AbsorbLeast(w, root, group, n, child, more, other);
    }
  }

  /** Processing the next task itself, once whatever it runs has been dealt with. */
  lemma NextRow(w: World, root: string, group: set<string>, n: nat)
    requires Swept(w, root, group, n) && n < |w.tasks[root]|
    requires RefersAt(w, root, n) ==> w.tasks[root][n].ref.run in group + {root}
    ensures Swept(w, root, group, n + 1)
    ensures var p := Partly(w, root, group, n); var q := Partly(w, root, group, n + 1);
      && q.runs == p.runs
      && p.tasks[root][n] == w.tasks[root][n]
      && q.tasks == (if w.tasks[root][n].state.IsTerminal() then p.tasks
                     else p.tasks[root := p.tasks[root][n := CancelRow(w.tasks[root][n])]])
      && q.killed == p.killed + (if w.tasks[root][n].ref.Attempt? && !w.tasks[root][n].state.IsTerminal()
                                 then {w.tasks[root][n].ref.name} else {})
  {
    var rows := w.tasks[root];
    assert CancelRows(rows, n + 1) == CancelRows(rows, n)[n := CancelRow(rows[n])];
    if rows[n].state.IsTerminal() {
      assert CancelRows(rows, n + 1) == CancelRows(rows, n);
    }
    assert KillsIn(rows, n + 1) == KillsIn(rows, n) +
      if rows[n].ref.Attempt? && !rows[n].state.IsTerminal() then {rows[n].ref.name} else {};
  }

  /** All tasks processed: root and group together are the cascade. */
  lemma SweptAll(w: World, root: string, group: set<string>)
    requires root in w.tasks && Swept(w, root, group, |w.tasks[root]|)
    ensures IsCascade(w, root, group + {root})
    ensures Partly(w, root, group, |w.tasks[root]|) == CancelAll(w, group + {root})
  {
    var all := group + {root};
    forall a, b {:trigger Refers(w, a, b)} | a in all && Refers(w, a, b) && w.Active(b)
      ensures b in all
    {
      if a == root {
        var i :| 0 <= i < |w.tasks[a]| && !w.tasks[a][i].state.IsTerminal() && w.tasks[a][i].ref == Child(b);
        assert RefersAt(w, root, i);
      }
    }
    KillsUnion(w, group, {root});
    var p, c := Partly(w, root, group, |w.tasks[root]|), CancelAll(w, all);
    assert Kills(w, {root}) == KillsIn(w.tasks[root], |w.tasks[root]|);
    assert p.runs == c.runs;
    assert p.tasks == c.tasks;
  }

  class Scheduler {
    var runs: map<string, RunState>
    var tasks: map<string, seq<TaskRow>>
    var killed: set<string>

    ghost function State(): World
      reads this
    {
      World(runs, tasks, killed)
    }

    constructor (w: World)
      ensures State() == w
    {
      runs, tasks, killed := w.runs, w.tasks, w.killed;
    }

    /**
     Cancels an active run and everything active below it. `group` is what was swept up;
     it is determined by the state before the call, and nothing outside it changes.
     */
    method CancelRunLocked(runID: string) returns (r: Outcome, ghost group: set<string>)
      requires State().Valid()
      modifies this
      ensures State().Valid()
      ensures r.NotFound? <==> runID !in old(runs)
      ensures r.NotActive? <==> runID in old(runs) && old(runs[runID]) != RunQueued && old(runs[runID]) != RunRunning
      ensures !r.Cancelled? ==> State() == old(State()) && group == {}
      ensures r.Cancelled? ==> IsCascade(old(State()), runID, group)
      ensures State() == CancelAll(old(State()), group)
      decreases State().ActiveRuns(), 0
    {
      ghost var w := State();
      if runID !in runs {
        NothingCancelled(w);
        return NotFound, {};
      }
      if runs[runID] != RunQueued && runs[runID] != RunRunning {
        NothingCancelled(w);
        return NotActive, {};
      }
      runs := runs[runID := RunCancelled];
      FirstStep(w, runID);
      assert runID in w.ActiveRuns();
      group := CancelTasks(runID, w);
      SweptAll(w, runID, group);
      group := group + {runID};
      r := Outcome.Cancelled;
    }

    method CancelTasks(runID: string, ghost w: World) returns (ghost group: set<string>)
      requires w.Valid() && w.Active(runID)
      requires Swept(w, runID, {}, 0) && State() == Partly(w, runID, {}, 0)
      modifies this
      ensures Swept(w, runID, group, |w.tasks[runID]|) && State() == Partly(w, runID, group, |w.tasks[runID]|)
      decreases w.ActiveRuns() - {runID}, 4
    {
      group := {};
      var tis := tasks[runID];
      assert tis == w.tasks[runID];
      for i := 0 to |tis|
        invariant Swept(w, runID, group, i) && State() == Partly(w, runID, group, i)
      {
        assert State().ActiveRuns() <= w.ActiveRuns() - {runID};
        group := CancelTask(runID, i, tis[i], w, group);
      }
    }

    /** One round of the loop over the run's tasks; `ti` is the row as read before the loop. */
    method CancelTask(runID: string, i: nat, ti: TaskRow, ghost w: World, ghost group: set<string>)
      returns (ghost wider: set<string>)
      requires Swept(w, runID, group, i) && State() == Partly(w, runID, group, i)
      requires i < |w.tasks[runID]| && ti == w.tasks[runID][i]
      modifies this
      ensures Swept(w, runID, wider, i + 1) && State() == Partly(w, runID, wider, i + 1)
      decreases State().ActiveRuns(), 3
    {
      wider := group;
      if !ti.state.IsTerminal() && ti.ref.Child? {
        wider := SweepChild(runID, i, ti.ref.run, w, group);
      } else if !ti.state.IsTerminal() && ti.ref.Attempt? {
        ghost var none := CancelAttempt(ti.ref);
      }
      NextRow(w, runID, wider, i);
      if !ti.state.IsTerminal() {
        tasks := tasks[runID := tasks[runID][i := ti.(state := TaskState.Cancelled)]];
      }
    }

    method SweepChild(runID: string, i: nat, child: string, ghost w: World, ghost group: set<string>)
      returns (ghost wider: set<string>)
      requires Swept(w, runID, group, i) && State() == Partly(w, runID, group, i)
      requires i < |w.tasks[runID]| && w.tasks[runID][i].ref == Child(child) && !w.tasks[runID][i].state.IsTerminal()
      modifies this
      ensures Swept(w, runID, wider, i) && State() == Partly(w, runID, wider, i)
      ensures RefersAt(w, runID, i) ==> child in wider + {runID}
      decreases State().ActiveRuns(), 2
    {
      ghost var more := CancelAttempt(Child(child));
      if Partly(w, runID, group, i).Active(child) {
        Absorb(w, runID, group, i, child, more);
        wider := group + more;
      } else {
        NothingCancelled(Partly(w, runID, group, i));
        wider := group;
      }
    }

    method CancelAttempt(ref: TaskRef) returns (ghost more: set<string>)
      requires State().Valid() && ref != NoRef
      modifies this
      ensures State().Valid()
      ensures ref.Attempt? ==> more == {} && State() == old(State()).(killed := old(killed) + {ref.name})
      ensures ref.Child? ==>
        && (if old(State()).Active(ref.run) then IsCascade(old(State()), ref.run, more) else more == {})
        && State() == CancelAll(old(State()), more)
      decreases State().ActiveRuns(), 1
    {
      match ref
      case Child(child) =>
        var r;
        r, more := CancelRunLocked(child);
      case Attempt(name) =>
        killed := killed + {name};
        more := {};
    }
  }

  lemma NothingCancelled(w: World)
    ensures CancelAll(w, {}) == w
  {
    assert Kills(w, {}) == {};
  }

  lemma FirstStep(w: World, root: string)
    requires w.Valid() && w.Active(root)
    ensures Partly(w, root, {}, 0) == w.(runs := w.runs[root := RunCancelled])
    ensures Swept(w, root, {}, 0)
  {
    var p := Partly(w, root, {}, 0);
    assert CancelRows(w.tasks[root], 0) == w.tasks[root];
    assert KillsIn(w.tasks[root], 0) == {} && Kills(w, {}) == {};
    assert p.tasks == w.tasks;
  }

  // ---- the cascade as reachability ----

  ghost predicate Hop(w: World, p: seq<string>, i: nat)
    requires i + 1 < |p|
  {
    Refers(w, p[i], p[i + 1]) && w.Active(p[i + 1])
  }

  /** A chain of active runs, each referred to by an unfinished sub-workflow task of the one before. */
  ghost predicate IsHops(w: World, p: seq<string>, a: string, b: string) {
    && |p| > 0 && p[0] == a && p[|p| - 1] == b
    && forall i: nat :: i + 1 < |p| ==> Hop(w, p, i)
  }

  ghost predicate ReachesRun(w: World, a: string, b: string) {
    exists p :: IsHops(w, p, a, b)
  }

  lemma {:induction false} ClosedHoldsHops(w: World, group: set<string>, p: seq<string>, a: string, b: string)
    requires ClosedUnder(w, group) && a in group && IsHops(w, p, a, b)
    ensures b in group
    decreases |p|
  {
    if |p| > 1 {
      var q := p[..|p| - 1];
      forall i: nat | i + 1 < |q|
        ensures Hop(w, q, i)
      {
        assert Hop(w, p, i);
      }
      ClosedHoldsHops(w, group, q, a, p[|p| - 2]);
      assert Hop(w, p, |p| - 2);
    }
  }

  lemma HopFurther(w: World, a: string, b: string, c: string)
    requires ReachesRun(w, a, b) && Refers(w, b, c) && w.Active(c)
    ensures ReachesRun(w, a, c)
  {
    var p :| IsHops(w, p, a, b);
    var q := p + [c];
    forall i: nat | i + 1 < |q|
      ensures Hop(w, q, i)
    {
      if i + 1 < |p| {
        assert Hop(w, p, i);
      }
    }
    assert IsHops(w, q, a, c);
  }

  /** What a cancel sweeps up is exactly the runs reachable from its root. */
  lemma CascadeIsReachability(w: World, root: string, group: set<string>)
    requires IsCascade(w, root, group)
    ensures forall r :: r in group <==> ReachesRun(w, root, r)
  {
    var reached := set r | r in group && ReachesRun(w, root, r);
    assert IsHops(w, [root], root, root);
    forall a, b {:trigger Refers(w, a, b)} | a in reached && Refers(w, a, b) && w.Active(b)
      ensures b in reached
    {
      HopFurther(w, root, a, b);
    }
    assert ClosedUnder(w, reached);
    forall r | ReachesRun(w, root, r)
      ensures r in group
    {
      var p :| IsHops(w, p, root, r);
      ClosedHoldsHops(w, group, p, root, r);
    }
  }

  ghost predicate Ended(t: TaskRow) {
    t.state in {Success, Failed, UpstreamFailed, Skipped, TaskState.Cancelled, TimedOut}
  }

  /** Task `i` of run `r` is an unfinished attempt under that name, in a run reachable from the root. */
  ghost predicate MustDie(w: World, root: string, name: string, r: string, i: int) {
    && ReachesRun(w, root, r) && r in w.tasks && 0 <= i < |w.tasks[r]|
    && w.tasks[r][i].ref == Attempt(name) && !Ended(w.tasks[r][i])
  }

  /**
   After a successful cancel every run reachable from the root is cancelled: its tasks keep
   their places and references, those that had ended keep their outcome, and every other one
   is cancelled. Every other run keeps its state and its tasks.
   */
  lemma CancelledExactly(w: World, root: string, group: set<string>)
    requires w.Valid() && IsCascade(w, root, group)
    ensures var t := CancelAll(w, group);
      && t.runs.Keys == w.runs.Keys && t.tasks.Keys == w.tasks.Keys
      && (forall r :: r in w.runs && !ReachesRun(w, root, r) ==> t.runs[r] == w.runs[r] && t.tasks[r] == w.tasks[r])
      && (forall r :: r in w.runs && ReachesRun(w, root, r) ==>
            t.runs[r] == RunCancelled && |t.tasks[r]| == |w.tasks[r]|)
      && (forall r, i :: r in w.runs && ReachesRun(w, root, r) && 0 <= i < |w.tasks[r]| ==>
            && t.tasks[r][i].ref == w.tasks[r][i].ref
            && t.tasks[r][i].state == if Ended(w.tasks[r][i]) then w.tasks[r][i].state else TaskState.Cancelled)
  {
    CascadeIsReachability(w, root, group);
  }

  /** And the executor was told to kill exactly the attempts of the tasks that were thus cancelled. */
  lemma KilledExactly(w: World, root: string, group: set<string>, name: string)
    requires w.Valid() && IsCascade(w, root, group)
    ensures name in CancelAll(w, group).killed
      <==> name in w.killed || exists r, i :: MustDie(w, root, name, r, i)
  {
    CascadeIsReachability(w, root, group);
    if r, i :| MustDie(w, root, name, r, i) {
      assert name in KillsIn(w.tasks[r], |w.tasks[r]|);
    }
    if name in Kills(w, group) {
      var r :| r in group && r in w.tasks && name in KillsIn(w.tasks[r], |w.tasks[r]|);
      var i :| 0 <= i < |w.tasks[r]| && !w.tasks[r][i].state.IsTerminal() && w.tasks[r][i].ref.Attempt?
               && w.tasks[r][i].ref.name == name;
      assert MustDie(w, root, name, r, i);
    }
  }
}
