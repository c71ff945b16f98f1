/**
 A whole run of a DAG, task by task (internal/scheduler/scheduler.go, processRun, dispatch,
 runTask, recordFailure): blocks are propagated, ready tasks are dispatched or skipped,
 attempts end in any way, and failed ones are retried while retries remain. Steps may be
 taken in any order; an attempt handed back without having executed is not a step.
 */
module RunTermination {
  import opened TaskModel
  import opened DependencyChecks
  import opened BlockPropagation

  /** `left` holds the retries each task still has. */
  datatype Progress = Progress(rows: Rows, left: map<string, nat>)

  datatype Step =
    // a scheduled task that can no longer become ready
    | Block(i: nat)
    // a ready task: to an executor, or skipped or failed by its own gates
    | Dispatch(i: nat)
    | Decide(i: nat, outcome: TaskState)
    // an attempt
    | MarkRunning(i: nat)
    | End(i: nat, outcome: TaskState)
    | FailForRetry(i: nat)
    | Requeue(i: nat)
    // a cancel or a deadline
    | Stop(i: nat, outcome: TaskState)

  function Left(s: Progress, id: string): nat {
    if id in s.left then s.left[id] else 0
  }

  ghost predicate IsReady(t: Task, rows: Rows) {
    t.id in rows && rows[t.id] == Scheduled && GateOpen(t, rows)
  }

  predicate HasAttempt(state: TaskState) {
    state.Queued? || state.Running?
  }

  /** What each step asks of its task. */
  ghost predicate Enabled(t: Task, s: Progress, step: Step)
    requires t.id in s.rows
  {
    var state := s.rows[t.id];
    match step
    case Block(_) => Stuck(t, s.rows)
    case Dispatch(_) => IsReady(t, s.rows)
    case Decide(_, outcome) => IsReady(t, s.rows) && (outcome.Skipped? || outcome.Failed?)
    case MarkRunning(_) => state.Queued?
    case End(_, outcome) => HasAttempt(state) && outcome.IsTerminal() && !outcome.UpstreamFailed?
    case FailForRetry(_) => HasAttempt(state) && Left(s, t.id) > 0
    case Requeue(_) => state.UpForRetry?
    case Stop(_, outcome) => !state.IsTerminal() && (outcome.TimedOut? || outcome == TaskState.Cancelled)
  }

  /** The state a step takes its task to. */
  function Target(step: Step): TaskState {
    match step
    case Block(_) => UpstreamFailed
    case Dispatch(_) => Queued
    case Decide(_, outcome) => outcome
    case MarkRunning(_) => Running
    case End(_, outcome) => outcome
    case FailForRetry(_) => UpForRetry
    case Requeue(_) => Scheduled
    case Stop(_, outcome) => outcome
  }

  ghost predicate May(tasks: seq<Task>, s: Progress, step: Step) {
    step.i < |tasks| && tasks[step.i].id in s.rows && Enabled(tasks[step.i], s, step)
  }

  function Next(tasks: seq<Task>, s: Progress, step: Step): Progress
    requires step.i < |tasks|
  {
    var id := tasks[step.i].id;
    Progress(s.rows[id := Target(step)], if step.FailForRetry? && id in s.left && s.left[id] > 0
                                         then s.left[id := s.left[id] - 1] else s.left)
  }

  /** Every step was enabled at its turn. */
  ghost predicate IsRun(tasks: seq<Task>, s: Progress, steps: seq<Step>)
    decreases |steps|
  {
    |steps| > 0 ==> May(tasks, s, steps[0]) && IsRun(tasks, Next(tasks, s, steps[0]), steps[1..])
  }

  ghost function After(tasks: seq<Task>, s: Progress, steps: seq<Step>): Progress
    requires IsRun(tasks, s, steps)
    decreases |steps|
  {
    if |steps| == 0 then s else After(tasks, Next(tasks, s, steps[0]), steps[1..])
  }

  // ----- no run goes on for ever -----

  function Rank(state: TaskState, left: nat): nat {
    match state
    case UpForRetry => 4 + 4 * left
    case Scheduled => 3 + 4 * left
    case Queued => 2 + 4 * left
    case Running => 1 + 4 * left
    case _ => 0
  }

  function RankOf(s: Progress, id: string): nat {
    if id in s.rows then Rank(s.rows[id], Left(s, id)) else 0
  }

  /** A bound on the steps a run can still take. */
  function Work(tasks: seq<Task>, s: Progress): nat {
    if |tasks| == 0 then 0 else Work(tasks[..|tasks| - 1], s) + RankOf(s, tasks[|tasks| - 1].id)
  }

  lemma {:induction false} SameWork(tasks: seq<Task>, s: Progress, u: Progress)
    requires forall i :: 0 <= i < |tasks| ==> RankOf(u, tasks[i].id) == RankOf(s, tasks[i].id)
    ensures Work(tasks, u) == Work(tasks, s)
  {
    if |tasks| > 0 {
      SameWork(tasks[..|tasks| - 1], s, u);
    }
  }

  lemma {:induction false} LessWork(tasks: seq<Task>, s: Progress, u: Progress, i: nat)
    requires i < |tasks| && RankOf(u, tasks[i].id) < RankOf(s, tasks[i].id)
    requires forall j :: 0 <= j < |tasks| && j != i ==> RankOf(u, tasks[j].id) == RankOf(s, tasks[j].id)
    ensures Work(tasks, u) < Work(tasks, s)
  {
    if i == |tasks| - 1 {
      SameWork(tasks[..i], s, u);
    } else {
      LessWork(tasks[..|tasks| - 1], s, u, i);
    }
  }

  /** Every step leaves less to do. */
  lemma StepLeavesLess(tasks: seq<Task>, s: Progress, step: Step)
    requires DistinctIds(tasks) && Instantiated(tasks, s.rows) && May(tasks, s, step)
    ensures Instantiated(tasks, Next(tasks, s, step).rows)
    ensures Work(tasks, Next(tasks, s, step)) < Work(tasks, s)
  {
    var u := Next(tasks, s, step);
    RankFalls(tasks, s, step);
    forall j | 0 <= j < |tasks| && j != step.i
      ensures RankOf(u, tasks[j].id) == RankOf(s, tasks[j].id)
    {
      assert tasks[j].id != tasks[step.i].id;
    }
    LessWork(tasks, s, u, step.i);
  }

  lemma RankFalls(tasks: seq<Task>, s: Progress, step: Step)
    requires Instantiated(tasks, s.rows) && May(tasks, s, step)
    ensures RankOf(Next(tasks, s, step), tasks[step.i].id) < RankOf(s, tasks[step.i].id)
    ensures Target(step) != Unexpanded
  {
  }

  // ----- outcomes follow the rules -----

  /** The states a task can only reach through its gate. */
  predicate WentThrough(state: TaskState) {
    state.Queued? || state.Running? || state.UpForRetry? || state.Success? || state.Failed? || state.Skipped?
  }

  /** Started only if its rule allowed it, given up only if its rule never will. */
  ghost predicate AsRuled(t: Task, rows: Rows) {
    t.id in rows ==> && (WentThrough(rows[t.id]) ==> GateOpen(t, rows))
                     && (rows[t.id].UpstreamFailed? ==> GateShut(t, rows))
  }

  /** A step changes no finished row, so a gate once open or shut stays so. */
  lemma GateStays(t: Task, tasks: seq<Task>, s: Progress, step: Step)
    requires May(tasks, s, step)
    ensures GateOpen(t, s.rows) ==> GateOpen(t, Next(tasks, s, step).rows)
    ensures GateShut(t, s.rows) ==> GateShut(t, Next(tasks, s, step).rows)
  {
    var u := Next(tasks, s, step);
    GateReadsEveryDep(t, s.rows);
    GateReadsEveryDep(t, u.rows);
    VerdictNeverReverses(t.rule, DepStates(t, s.rows), DepStates(t, u.rows));
  }

  lemma StepAsRuled(tasks: seq<Task>, s: Progress, step: Step, t: Task)
    requires DistinctIds(tasks) && t in tasks && May(tasks, s, step) && AsRuled(t, s.rows)
    ensures AsRuled(t, Next(tasks, s, step).rows)
  {
    GateStays(t, tasks, s, step);
    var j :| 0 <= j < |tasks| && tasks[j] == t;
    assert j != step.i ==> tasks[step.i].id != t.id;
  }

  lemma {:induction false} RunAsRuled(tasks: seq<Task>, s: Progress, steps: seq<Step>, t: Task)
    requires DistinctIds(tasks) && t in tasks && IsRun(tasks, s, steps) && AsRuled(t, s.rows)
    ensures AsRuled(t, After(tasks, s, steps).rows)
    decreases |steps|
  {
    if |steps| > 0 {
      StepAsRuled(tasks, s, steps[0], t);
      RunAsRuled(tasks, Next(tasks, s, steps[0]), steps[1..], t);
    }
  }

  /**
   However a run that starts with every task scheduled goes, and wherever it stands: a task
   that was started has, dependency by dependency, what its rule asks for, and one that was
   given up has what its rule cannot live with.
   */
  lemma OutcomesFollowTheRules(tasks: seq<Task>, s: Progress, steps: seq<Step>, t: Task)
    requires Accepted(tasks) && t in tasks && IsRun(tasks, s, steps)
    requires forall id :: id in s.rows ==> s.rows[id] == Scheduled
    ensures var rows := After(tasks, s, steps).rows;
            t.id in rows && WentThrough(rows[t.id]) && t.deps != [] ==>
              && (t.rule.AllSuccess? ==> forall d :: d in t.deps ==> HasSucceeded(d, rows))
              && (t.rule.AllDone? ==> forall d :: d in t.deps ==> HasEnded(d, rows))
              && (t.rule.OneSuccess? ==> exists d :: d in t.deps && HasSucceeded(d, rows))
              && (t.rule.OneFailed? ==> exists d :: d in t.deps && HasFailed(d, rows))
              && (t.rule.AllFailed? ==> forall d :: d in t.deps ==> HasFailed(d, rows))
              && (t.rule.NoneFailed? ==> forall d :: d in t.deps ==> HasSucceeded(d, rows) || WasSkipped(d, rows))
    ensures var rows := After(tasks, s, steps).rows;
            t.id in rows && rows[t.id] == UpstreamFailed ==>
              && t.deps != [] && !t.rule.AllDone?
              && (t.rule.AllSuccess? ==> exists d :: d in t.deps && (HasFailed(d, rows) || WasSkipped(d, rows)))
              && (t.rule.OneSuccess? ==> forall d :: d in t.deps ==> HasFailed(d, rows) || WasSkipped(d, rows))
              && (t.rule.OneFailed? ==> forall d :: d in t.deps ==> HasSucceeded(d, rows) || WasSkipped(d, rows))
              && (t.rule.AllFailed? ==> exists d :: d in t.deps && (HasSucceeded(d, rows) || WasSkipped(d, rows)))
              && (t.rule.NoneFailed? ==> exists d :: d in t.deps && HasFailed(d, rows))
  {
    RunAsRuled(tasks, s, steps, t);
  }

  /** In any run, from any rows: the gate a task was started or settled through is still open at the end. */
  lemma {:induction false} StartedThroughItsGate(tasks: seq<Task>, s: Progress, steps: seq<Step>, k: nat)
    requires IsRun(tasks, s, steps) && k < |steps| && (steps[k].Dispatch? || steps[k].Decide?)
    ensures steps[k].i < |tasks| && GateOpen(tasks[steps[k].i], After(tasks, s, steps).rows)
    decreases |steps|
  {
    if k == 0 {
      GateStays(tasks[steps[0].i], tasks, s, steps[0]);
      OpenStays(tasks[steps[0].i], tasks, Next(tasks, s, steps[0]), steps[1..]);
    } else {
      StartedThroughItsGate(tasks, Next(tasks, s, steps[0]), steps[1..], k - 1);
    }
  }

  lemma {:induction false} OpenStays(t: Task, tasks: seq<Task>, s: Progress, steps: seq<Step>)
    requires IsRun(tasks, s, steps) && GateOpen(t, s.rows)
    ensures GateOpen(t, After(tasks, s, steps).rows)
    decreases |steps|
  {
    if |steps| > 0 {
      GateStays(t, tasks, s, steps[0]);
      OpenStays(t, tasks, Next(tasks, s, steps[0]), steps[1..]);
    }
  }

  // ----- and none ends early -----

  ghost predicate AllTerminal(tasks: seq<Task>, rows: Rows) {
    forall i :: 0 <= i < |tasks| ==> tasks[i].id in rows && rows[tasks[i].id].IsTerminal()
  }

  lemma SettledIsItsOwnLeast(tasks: seq<Task>, rows: Rows)
    requires Settled(tasks, rows)
    ensures LeastSettled(tasks, rows, rows)
  {
  }

  /** While some task is unfinished, some step other than a cancel or deadline can be taken. */
  lemma UnfinishedHasAStep(tasks: seq<Task>, s: Progress) returns (step: Step)
    requires Accepted(tasks) && Instantiated(tasks, s.rows) && !AllTerminal(tasks, s.rows)
    ensures May(tasks, s, step) && !step.Stop?
  {
    if i :| 0 <= i < |tasks| && Stuck(tasks[i], s.rows) {
      step := Block(i);
    } else {
      SettledIsItsOwnLeast(tasks, s.rows);
      RunNeverWedges(tasks, s.rows, s.rows);
      if i :| 0 <= i < |tasks| && InFlight(s.rows[tasks[i].id]) {
        step := if s.rows[tasks[i].id].UpForRetry? then Requeue(i) else End(i, Success);
      } else {
        var i :| 0 <= i < |tasks| && s.rows[tasks[i].id] == Scheduled && GateOpen(tasks[i], s.rows);
        step := Dispatch(i);
      }
    }
  }

  ghost predicate Halted(tasks: seq<Task>, s: Progress) {
    forall step {:trigger May(tasks, s, step)} :: !May(tasks, s, step)
  }

  lemma TerminalIsHalted(tasks: seq<Task>, s: Progress)
    requires AllTerminal(tasks, s.rows)
    ensures Halted(tasks, s)
  {
  }

  /**
   Every run of an accepted DAG, in whatever order its steps are taken and however its
   attempts end, is finite, with a bound known from the start; and it can go no further
   exactly when every task is finished.
   */
  lemma {:induction false} EveryRunFinishes(tasks: seq<Task>, s: Progress, steps: seq<Step>)
    requires Accepted(tasks) && Instantiated(tasks, s.rows) && IsRun(tasks, s, steps)
    ensures |steps| + Work(tasks, After(tasks, s, steps)) <= Work(tasks, s)
    ensures Halted(tasks, After(tasks, s, steps)) <==> AllTerminal(tasks, After(tasks, s, steps).rows)
    decreases |steps|
  {
    if |steps| > 0 {
      StepLeavesLess(tasks, s, steps[0]);
      EveryRunFinishes(tasks, Next(tasks, s, steps[0]), steps[1..]);
    } else if AllTerminal(tasks, s.rows) {
      TerminalIsHalted(tasks, s);
    } else {
      var step := UnfinishedHasAStep(tasks, s);
    }
  }

  /** From any state the run can be brought to its end without cancelling anything. */
  lemma {:induction false} EveryRunCanFinish(tasks: seq<Task>, s: Progress) returns (steps: seq<Step>)
    requires Accepted(tasks) && Instantiated(tasks, s.rows)
    ensures IsRun(tasks, s, steps) && AllTerminal(tasks, After(tasks, s, steps).rows)
    ensures forall k :: 0 <= k < |steps| ==> !steps[k].Stop?
    decreases Work(tasks, s)
  {
    if AllTerminal(tasks, s.rows) {
      steps := [];
    } else {
      var step := UnfinishedHasAStep(tasks, s);
      StepLeavesLess(tasks, s, step);
      var more := EveryRunCanFinish(tasks, Next(tasks, s, step));
      steps := [step] + more;
      assert steps[1..] == more;
    }
  }
}
