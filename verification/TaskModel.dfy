/**
 Task states, trigger rules and the verdict a rule gives on the states of a
 task's dependencies (internal/model/model.go, internal/model/state.go).
 */
module TaskModel {

  /** `Unexpanded` is the empty state a dependency has before its row exists. */
  datatype TaskState =
    | Unexpanded
    | Scheduled
    | Queued
    | Running
    | UpForRetry
    | Success
    | Failed
    | UpstreamFailed
    | Skipped
    | Cancelled
    | TimedOut
  {
    predicate IsTerminal() {
      Success? || Failed? || UpstreamFailed? || Skipped? || Cancelled? || TimedOut?
    }

    /** Terminal states every rule counts as a failure. */
    predicate IsFailure() {
      Failed? || UpstreamFailed? || TimedOut? || Cancelled?
    }
  }

  datatype RunState = RunQueued | RunRunning | RunSuccess | RunFailed | RunCancelled | RunTimedOut {
    predicate IsTerminal() {
      RunSuccess? || RunFailed? || RunCancelled? || RunTimedOut?
    }
  }

  /** `AllSuccess` also stands for any rule name the source does not know. */
  datatype TriggerRule = AllSuccess | AllDone | OneSuccess | OneFailed | AllFailed | NoneFailed

  datatype Task = Task(id: string, deps: seq<string>, rule: TriggerRule)

  ghost predicate AllFinished(deps: seq<TaskState>) {
    forall i :: 0 <= i < |deps| ==> deps[i].IsTerminal()
  }

  ghost predicate SomeFailure(deps: seq<TaskState>) {
    exists i :: 0 <= i < |deps| && deps[i].IsFailure()
  }

  /** The rule is satisfied: the task may be dispatched. */
  ghost predicate Ready(rule: TriggerRule, deps: seq<TaskState>) {
    |deps| == 0 ||
    match rule
    case AllSuccess => forall i :: 0 <= i < |deps| ==> deps[i] == Success
    case AllDone => AllFinished(deps)
    case OneSuccess => Success in deps
    case OneFailed => SomeFailure(deps)
    case AllFailed => forall i :: 0 <= i < |deps| ==> deps[i].IsFailure()
    case NoneFailed => AllFinished(deps) && !SomeFailure(deps)
  }

  /** The rule can no longer be satisfied: the task becomes upstream_failed. */
  ghost predicate Blocked(rule: TriggerRule, deps: seq<TaskState>) {
    |deps| != 0 &&
    match rule
    case AllSuccess => SomeFailure(deps) || Skipped in deps
    case AllDone => false
    case OneSuccess => AllFinished(deps) && Success !in deps
    case OneFailed => AllFinished(deps) && !SomeFailure(deps)
    case AllFailed => Success in deps || Skipped in deps
    case NoneFailed => SomeFailure(deps)
  }

  /** The four tallies the source takes in one pass over the dependency states. */
  method EvalTriggerRule(rule: TriggerRule, deps: seq<TaskState>) returns (ready: bool, blocked: bool)
    ensures ready <==> Ready(rule, deps)
    ensures blocked <==> Blocked(rule, deps)
  {
    var n := |deps|;
    if n == 0 {
      return true, false;
    }
    var succ, fail, skip, done := 0, 0, 0, 0;
    for i := 0 to n
      invariant 0 <= succ && 0 <= fail && 0 <= skip && succ + fail + skip == done <= i
      invariant succ == i <==> forall k :: 0 <= k < i ==> deps[k] == Success
      invariant fail == i <==> forall k :: 0 <= k < i ==> deps[k].IsFailure()
      invariant done == i <==> forall k :: 0 <= k < i ==> deps[k].IsTerminal()
      invariant succ > 0 <==> exists k :: 0 <= k < i && deps[k] == Success
      invariant fail > 0 <==> exists k :: 0 <= k < i && deps[k].IsFailure()
      invariant skip > 0 <==> exists k :: 0 <= k < i && deps[k] == Skipped
    {
      var s := deps[i];
      if s == Success {
        succ := succ + 1;
      } else if s.IsFailure() {
        fail := fail + 1;
      } else if s == Skipped {
        skip := skip + 1;
      }
      if s.IsTerminal() {
        done := done + 1;
      }
    }
    var allDone := done == n;
    match rule {
      case AllDone => return allDone, false;
      case OneSuccess => return succ >= 1, allDone && succ == 0;
      case OneFailed => return fail >= 1, allDone && fail == 0;
      case AllFailed => return allDone && fail == n, succ > 0 || skip > 0;
      case NoneFailed => return allDone && fail == 0, fail > 0;
      case AllSuccess => return succ == n, fail > 0 || skip > 0;
    }
  }

  /** `after` is `before` with some unfinished dependencies moved on; finished ones keep their state. */
  ghost predicate Progressed(before: seq<TaskState>, after: seq<TaskState>) {
    && |before| == |after|
    && forall i :: 0 <= i < |before| && before[i].IsTerminal() ==> after[i] == before[i]
  }

  /** A verdict, once given, is never withdrawn while the remaining dependencies finish. */
  lemma VerdictNeverReverses(rule: TriggerRule, before: seq<TaskState>, after: seq<TaskState>)
    requires Progressed(before, after)
    ensures Ready(rule, before) ==> Ready(rule, after)
    ensures Blocked(rule, before) ==> Blocked(rule, after)
  {
    if AllFinished(before) {
      assert before == after;
    }
    if Success in before {
      var i :| 0 <= i < |before| && before[i] == Success;
      assert after[i] == Success;
    }
    if Skipped in before {
      var i :| 0 <= i < |before| && before[i] == Skipped;
      assert after[i] == Skipped;
    }
    if SomeFailure(before) {
      var i :| 0 <= i < |before| && before[i].IsFailure();
      assert after[i].IsFailure();
    }
    if rule.AllSuccess? && Ready(rule, before) {
      assert forall i :: 0 <= i < |before| ==> after[i] == before[i] == Success;
    }
    if rule.AllFailed? && Ready(rule, before) && |before| != 0 {
      assert forall i :: 0 <= i < |before| ==> after[i] == before[i];
    }
  }

  /** Never both; and once every dependency has finished, exactly one of the two. */
  lemma VerdictIsDecided(rule: TriggerRule, deps: seq<TaskState>)
    ensures !(Ready(rule, deps) && Blocked(rule, deps))
    ensures AllFinished(deps) ==> Ready(rule, deps) || Blocked(rule, deps)
  {
    if |deps| != 0 {
      assert deps[0] in deps;
      if AllFinished(deps) {
        match rule {
          case AllSuccess =>
            if !Ready(rule, deps) {
              var i :| 0 <= i < |deps| && deps[i] != Success;
              assert deps[i].IsFailure() || deps[i] == Skipped;
            }
          case AllFailed =>
            if !Ready(rule, deps) {
              var i :| 0 <= i < |deps| && !deps[i].IsFailure();
              assert deps[i] == Success || deps[i] == Skipped;
            }
          case _ =>
        }
      }
      if rule.AllFailed? && Ready(rule, deps) {
        assert Success !in deps && Skipped !in deps;
      }
    }
  }
}
