/**
 The scheduler's code for one task row (internal/scheduler/scheduler.go dispatch,
 runTask after the launch, awaitCompletion, finalizeTask, recordFailure, Recover),
 each method proved to take exactly the steps of Attempts it stands for. A store
 call that returns an error is a parameter, and so is what the executor answers.
 */
module AttemptStore {
  import opened TaskModel
  import opened Attempts

  datatype LaunchReply = Launched | NoWorker | LaunchError

  class TaskRow {
    var row: Row
    var workers: map<nat, Worker>
    ghost var held: Option<Held>
    ghost var mode: Mode
    ghost var recorded: set<nat>

    ghost function State(): System
      reads this
    {
      System(row, held, workers, mode, recorded)
    }

    constructor (s: System)
      ensures State() == s
    {
      row, held, workers, mode, recorded := s.row, s.held, s.workers, s.mode, s.recorded;
    }

    /** The optimistic write: it reports whether the row was still unfinished and carried `wanted`. */
    method UpdateTaskInstanceGuarded(ti: Row, wanted: Ref, dbError: bool) returns (applied: bool)
      modifies this`row
      ensures applied <==> !dbError && Applies(old(row), wanted)
      ensures row == if applied then ti else old(row)
    {
      applied := !dbError && row.ref == wanted && !row.state.IsTerminal();
      if applied {
        row := ti;
      }
    }

    method FinalizeWrite(ti: Row, dbError: bool)
      modifies this`row, this`recorded
      ensures var wins := !dbError && Applies(old(row), ti.ref);
        && row == (if wins then ti else old(row))
        && recorded == (if wins then old(recorded) + {ti.tries} else old(recorded))
    {
      var applied := UpdateTaskInstanceGuarded(ti, ti.ref, dbError);
      if applied {
        recorded := recorded + {ti.tries};
      }
    }

    method RecordFailure(ti: Row, dbError: bool)
      modifies this`row, this`recorded
      ensures State() == if dbError then old(State()) else Recording(old(State()), ti, Lost)
      ensures !dbError && old(row.ref) == ti.ref && Unfinished(old(row)) ==>
        row == ti.(state := if ti.tries <= ti.max then UpForRetry else Failed)
    {
      var out := ti;
      if ti.tries <= ti.max {
        out := out.(state := UpForRetry);
      } else {
        out := out.(state := Failed);
      }
      FinalizeWrite(out, dbError);
    }

    method FinalizeTask(ti: Row, code: int, dbError: bool)
      modifies this`row, this`recorded
      ensures State() == if dbError then old(State()) else Recording(old(State()), ti, ExitedWith(code))
      ensures !dbError && old(row.ref) == ti.ref && Unfinished(old(row)) ==>
        && (row.state.Success? <==> code == 0)
        && (row.state.Skipped? <==> code == 99)
        && (row.state.UpForRetry? <==> code != 0 && code != 99 && ti.tries <= ti.max)
        && (row.state.Failed? <==> code != 0 && code != 99 && ti.tries > ti.max)
    {
      if code == 0 || code == SKIP_EXIT_CODE {
        var out := ti.(state := Success);
        if code == SKIP_EXIT_CODE {
          out := out.(state := Skipped);
        }
        FinalizeWrite(out, dbError);
      } else {
        RecordFailure(ti, dbError);
      }
    }

    /** The tick, holding the lock, dispatches the row it re-read; `id` names the new goroutine. */
    method Dispatch(id: nat)
      requires TickMay(State()) && held.value.snap == row && row.state.Scheduled? && id !in workers
      modifies this`row, this`workers, this`held
      ensures State() == Next(old(State()), Step.Dispatch(id))
    {
      var ti := row;
      ti := ti.(tries := ti.tries + 1);
      ti := ti.(state := Queued, ref := Attempt(ti.tries));
      row := ti;
      held := Some(held.value.(snap := ti));
      workers := workers[id := Worker(Launching, ti)];
    }

    /** The early look before the launch: an attempt whose row is already cancelled is not started. */
    method StopIfCancelled(id: nat) returns (stop: bool)
      requires id in workers && workers[id].stage.Launching?
      modifies this`workers
      ensures stop <==> row.state == TaskState.Cancelled
      ensures State() == if stop then Next(old(State()), LaunchSkipped(id)) else old(State())
    {
      stop := row.state == TaskState.Cancelled;
      if stop {
        workers := workers - {id};
      }
    }

    /** The launch and what its reply leads to; the row may have changed since the early look. */
    method LaunchAttempt(id: nat, reply: LaunchReply, dbError: bool)
      requires id in workers && workers[id].stage.Launching?
      modifies this`row, this`workers, this`recorded
      ensures State() == Next(old(State()),
        match reply
        case Launched => LaunchWorks(id)
        case NoWorker => LaunchRefused(id, dbError)
        case LaunchError => LaunchFails(id, dbError))
    {
      var ti := workers[id].ti;
      match reply
      case NoWorker =>
        var back := ti.(tries := if ti.tries > 0 then ti.tries - 1 else 0, state := Scheduled, ref := NoRef);
        var applied := UpdateTaskInstanceGuarded(back, ti.ref, dbError);
        workers := workers - {id};
      case LaunchError =>
        RecordFailure(ti, dbError);
        workers := workers - {id};
      case Launched =>
        workers := workers[id := Worker(Started, ti)];
    }

    /** The process is up: mark the row running, or kill the process when the row has moved on. */
    method MarkAttemptRunning(id: nat, dbError: bool) returns (kill: bool)
      requires id in workers && workers[id].stage.Started?
      modifies this`row, this`workers
      ensures State() == Next(old(State()), MarkRunning(id, dbError))
      ensures kill <==> !dbError && !Applies(old(row), old(workers)[id].ti.ref)
    {
      var ti := workers[id].ti.(state := Running);
      var applied := UpdateTaskInstanceGuarded(ti, ti.ref, dbError);
      if applied {
        workers := workers[id := Worker(Polling, ti)];
      } else {
        workers := workers - {id};
      }
      kill := !dbError && !applied;
    }

    /** The verdict is in: the attempt is settled against the row as it is by then. */
    method SettleAttempt(id: nat, o: Outcome, dbError: bool)
      requires id in workers && workers[id].stage.Polling?
      modifies this`row, this`workers, this`recorded
      ensures State() == Next(old(State()), Poll(id, o, dbError))
    {
      var ti := workers[id].ti;
      match o {
        case ExitedWith(code) => FinalizeTask(ti, code, dbError);
        case Lost => RecordFailure(ti, dbError);
      }
      workers := workers - {id};
    }

    /** Recovery's treatment of a row its queued listing returned. */
    method RecoverQueuedRow(ti: Row, id: nat, probe: Probe, dbError: bool) returns (kill: bool)
      requires mode == QueuedPass(Some(ti)) && id !in workers
      modifies this`row, this`workers, this`mode, this`recorded
      ensures State() == Next(old(State()), RecoverQueued(id, probe, dbError))
      ensures kill <==> probe.StillRunning? && !dbError && !Applies(old(row), ti.ref)
    {
      kill := false;
      mode := QueuedPass(None);
      match probe
      case Exited(code) => FinalizeTask(ti, code, dbError);
      case StillRunning =>
        var up := ti.(state := Running);
        var applied := UpdateTaskInstanceGuarded(up, ti.ref, dbError);
        kill := !dbError && !applied;
        if applied {
          workers := workers[id := Worker(Polling, up)];
        }
      case Unknown =>
        var back := ti.(state := Scheduled, ref := NoRef);
        if back.tries > 0 {
          back := back.(tries := back.tries - 1);
        }
        var applied := UpdateTaskInstanceGuarded(back, ti.ref, dbError);
      case ProbeError =>
    }

    /** Recovery's treatment of a row its running listing returned. */
    method RecoverRunningRow(ti: Row, id: nat, probe: Probe, dbError: bool)
      requires mode == RunningPass(Some(ti)) && id !in workers
      modifies this`row, this`workers, this`mode, this`recorded
      ensures State() == Next(old(State()), RecoverRunning(id, probe, dbError))
    {
      mode := Up;
      match probe
      case Exited(code) => FinalizeTask(ti, code, dbError);
      case StillRunning => workers := workers[id := Worker(Polling, ti)];
      case Unknown => RecordFailure(ti, dbError);
      case ProbeError =>
    }
  }

  /** The poll loop over the executor's successive answers, which touches nothing: the first decisive one counts. */
  method AwaitVerdict(probes: seq<Probe>) returns (verdict: Option<Outcome>)
    ensures var d := Decisive(probes);
      verdict == if d == |probes| then None else Some(Verdict(probes[d]))
  {
    var i := 0;
    while i < |probes|
      invariant 0 <= i <= |probes|
      invariant Decisive(probes) == i + Decisive(probes[i..])
    {
      match probes[i] {
        case Exited(code) => return Some(ExitedWith(code));
        case Unknown => return Some(Lost);
        case _ =>
          assert probes[i..][1..] == probes[i + 1..];
          i := i + 1;
      }
    }
    verdict := None;
  }

  predicate IsDecisive(p: Probe) {
    p.Exited? || p.Unknown?
  }

  /** The position of the first decisive answer, or the length when there is none. */
  function Decisive(probes: seq<Probe>): (d: nat)
    ensures d <= |probes|
    ensures d < |probes| ==> IsDecisive(probes[d])
    ensures forall i :: 0 <= i < d ==> !IsDecisive(probes[i])
  {
    if |probes| == 0 || IsDecisive(probes[0]) then 0 else 1 + Decisive(probes[1..])
  }

  function Verdict(p: Probe): Outcome
    requires IsDecisive(p)
  {
    if p.Unknown? then Lost else ExitedWith(p.code)
  }
}
