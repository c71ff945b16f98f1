/**
 The life of one task row under interleaved dispatch, launch, poll, crash, recovery,
 tick and operator steps (internal/scheduler/scheduler.go dispatch, runTask,
 awaitCompletion, recordFailure, Recover; internal/store/store.go
 UpdateTaskInstanceGuarded). Sub-workflow rows are not part of this model, and the
 completion heuristics that read log files are left out.
 */
module Attempts {
  import opened TaskModel

  datatype Option<T> = None | Some(value: T)

  /** An attempt's reference carries its try number (run/task/try). */
  datatype Ref = NoRef | Attempt(n: nat)

  datatype Row = Row(state: TaskState, tries: nat, max: nat, ref: Ref)

  datatype Stage = Launching | Started | Polling

  /** One goroutine working for an attempt, with its private copy of the row. */
  datatype Worker = Worker(stage: Stage, ti: Row)

  /** What a holder of finalizeMu read when it took the lock. */
  datatype Held = Held(byTick: bool, snap: Row)

  /** Recovery's two listings, each with the row if it was listed and is not yet handled. */
  datatype Mode = Down | QueuedPass(todo: Option<Row>) | RunningPass(todo: Option<Row>) | Up

  /** `recorded` holds the try numbers whose outcome has been written to the row. */
  datatype System = System(row: Row, held: Option<Held>, workers: map<nat, Worker>, mode: Mode, recorded: set<nat>)

  function Start(max: nat): System {
    System(Row(Scheduled, 0, max, NoRef), None, map[], Up, {})
  }

  const SKIP_EXIT_CODE := 99

  datatype Outcome = ExitedWith(code: int) | Lost

  datatype Probe = Exited(code: int) | StillRunning | Unknown | ProbeError

  /** The guarded write applies only to an unfinished row that still carries the expected reference. */
  predicate Applies(row: Row, wanted: Ref) {
    row.ref == wanted && !row.state.IsTerminal()
  }

  /** An attempt that never executed is handed back: the try is not consumed. */
  function Refunded(ti: Row): Row {
    ti.(state := Scheduled, ref := NoRef, tries := if ti.tries > 0 then ti.tries - 1 else 0)
  }

  function Dispatched(ti: Row): Row {
    ti.(state := Queued, tries := ti.tries + 1, ref := Attempt(ti.tries + 1))
  }

  function Failing(ti: Row): Row {
    if ti.tries <= ti.max then ti.(state := UpForRetry) else ti.(state := Failed)
  }

  function Finished(ti: Row, o: Outcome): Row {
    if o == ExitedWith(0) then ti.(state := Success)
    else if o == ExitedWith(SKIP_EXIT_CODE) then ti.(state := Skipped)
    else Failing(ti)
  }

  /** Recording an outcome: a guarded write from the worker's own copy. */
  function Recording(s: System, ti: Row, o: Outcome): System {
    if Applies(s.row, ti.ref) then s.(row := Finished(ti, o), recorded := s.recorded + {ti.tries}) else s
  }

  datatype Step =
    // finalizeMu
    | Lock(byTick: bool)
    | Unlock
    // writes of the tick
    | BlockOut
    | SkipTask
    | GiveUpWaiting
    | Requeue
    | TimeOut
    | Dispatch(id: nat)
    // writes of an operator (cancel also stands for the tick's discard)
    | Cancel
    | Mark(target: TaskState)
    | Release
    | Retry(max: nat)
    // the attempt's goroutine
    | LaunchSkipped(id: nat)
    | LaunchFails(id: nat, dbError: bool)
    | LaunchRefused(id: nat, dbError: bool)
    | LaunchWorks(id: nat)
    | MarkRunning(id: nat, dbError: bool)
    | Poll(id: nat, o: Outcome, dbError: bool)
    // process death and restart
    | Crash
    | ListQueued
    | RecoverQueued(id: nat, probe: Probe, dbError: bool)
    | ListRunning
    | RecoverRunning(id: nat, probe: Probe, dbError: bool)

  /** A blind write from the lock holder's copy, which is what it goes on working with. */
  function Put(s: System, r: Row): System
    requires s.held.Some?
  {
    s.(row := r, held := Some(s.held.value.(snap := r)))
  }

  predicate TickMay(s: System) {
    s.held.Some? && s.held.value.byTick && s.mode.Up?
  }

  predicate OperatorMay(s: System) {
    s.held.Some? && !s.held.value.byTick && !s.mode.Down?
  }

  function TickWrites(s: System, step: Step): System
    requires TickMay(s)
  {
    var snap := s.held.value.snap;
    match step
    case BlockOut => if snap.state.Scheduled? then Put(s, snap.(state := UpstreamFailed)) else s
    case SkipTask => if snap.state.Scheduled? then Put(s, snap.(state := Skipped)) else s
    case GiveUpWaiting => if snap.state.Scheduled? then Put(s, snap.(state := Failed)) else s
    case Requeue => if snap.state.UpForRetry? then Put(s, snap.(state := Scheduled, ref := NoRef)) else s
    case TimeOut =>
      if !snap.state.IsTerminal() && Applies(s.row, snap.ref) then Put(s, snap.(state := TimedOut)) else s
    case Dispatch(id) =>
      if snap.state.Scheduled? && id !in s.workers then
        var ti := Dispatched(snap);
        Put(s, ti).(workers := s.workers[id := Worker(Launching, ti)])
      else s
    case Cancel => if !snap.state.IsTerminal() then Put(s, snap.(state := Cancelled)) else s
    case _ => s
  }

  function OperatorWrites(s: System, step: Step): System
    requires OperatorMay(s)
  {
    var snap := s.held.value.snap;
    match step
    case Cancel => if !snap.state.IsTerminal() then Put(s, snap.(state := Cancelled)) else s
    case Mark(target) =>
      if target.Success? || target.Failed? || target.Skipped? then Put(s, snap.(state := target)) else s
    case Release => if snap.state.UpstreamFailed? then Put(s, snap.(state := Scheduled, ref := NoRef)) else s
    case Retry(max) => Put(s, snap.(state := Scheduled, ref := NoRef, max := max))
    case _ => s
  }

  function Leaves(s: System, id: nat): System {
    s.(workers := s.workers - {id})
  }

  function WorkerMoves(s: System, step: Step): System {
    match step
    case LaunchSkipped(id) =>
      if id in s.workers && s.workers[id].stage == Launching then Leaves(s, id) else s
    case LaunchFails(id, dbError) =>
      if id in s.workers && s.workers[id].stage == Launching then
        Leaves(if dbError then s else Recording(s, s.workers[id].ti, Lost), id)
      else s
    case LaunchRefused(id, dbError) =>
      // no worker in the group: the attempt is given back
      if id in s.workers && s.workers[id].stage == Launching then
        var ti := s.workers[id].ti;
        Leaves(if !dbError && Applies(s.row, ti.ref) then s.(row := Refunded(ti)) else s, id)
      else s
    case LaunchWorks(id) =>
      if id in s.workers && s.workers[id].stage == Launching then
        s.(workers := s.workers[id := Worker(Started, s.workers[id].ti)])
      else s
    case MarkRunning(id, dbError) =>
      if id in s.workers && s.workers[id].stage == Started then
        var ti := s.workers[id].ti.(state := Running);
        if !dbError && Applies(s.row, ti.ref) then
          s.(row := ti, workers := s.workers[id := Worker(Polling, ti)])
        else Leaves(s, id)
      else s
    case Poll(id, o, dbError) =>
      if id in s.workers && s.workers[id].stage == Polling then
        Leaves(if dbError then s else Recording(s, s.workers[id].ti, o), id)
      else s
    case _ => s
  }

  function RecoveryMoves(s: System, step: Step): System {
    match step
    case ListQueued =>
      if s.mode.Down? then s.(mode := QueuedPass(if s.row.state.Queued? then Some(s.row) else None)) else s
    case RecoverQueued(id, probe, dbError) =>
      if s.mode.QueuedPass? && s.mode.todo.Some? && id !in s.workers then
        var ti := s.mode.todo.value;
        var t := s.(mode := QueuedPass(None));
        match probe
        case Exited(code) => if dbError then t else Recording(t, ti, ExitedWith(code))
        case StillRunning =>
          if !dbError && Applies(s.row, ti.ref) then
            t.(row := ti.(state := Running), workers := s.workers[id := Worker(Polling, ti.(state := Running))])
          else t
        case Unknown =>
          if !dbError && Applies(s.row, ti.ref) then t.(row := Refunded(ti)) else t
        case ProbeError => t
      else s
    case ListRunning =>
      if s.mode == QueuedPass(None) then
        s.(mode := RunningPass(if s.row.state.Running? then Some(s.row) else None))
      else s
    case RecoverRunning(id, probe, dbError) =>
      if s.mode == RunningPass(None) then s.(mode := Up)
      else if s.mode.RunningPass? && id !in s.workers then
        var ti := s.mode.todo.value;
        var t := s.(mode := Up);
        match probe
        case Exited(code) => if dbError then t else Recording(t, ti, ExitedWith(code))
        case StillRunning => t.(workers := s.workers[id := Worker(Polling, ti)])
        case Unknown => if dbError then t else Recording(t, ti, Lost)
        case ProbeError => t
      else s
    case _ => s
  }

  predicate IsTickWrite(step: Step) {
    step.BlockOut? || step.SkipTask? || step.GiveUpWaiting? || step.Requeue? || step.TimeOut? || step.Dispatch?
  }

  /** Cancel or discard, mark (with the release of what it unblocks), retry. */
  predicate IsOverride(step: Step) {
    step.Cancel? || step.Mark? || step.Release? || step.Retry?
  }

  predicate IsRecovery(step: Step) {
    step.ListQueued? || step.RecoverQueued? || step.ListRunning? || step.RecoverRunning?
  }

  predicate IsWorkerStep(step: Step) {
    || step.LaunchSkipped? || step.LaunchFails? || step.LaunchRefused? || step.LaunchWorks? || step.MarkRunning?
    || step.Poll?
  }

  function Next(s: System, step: Step): System {
    if step.Lock? then
      if s.held.None? && !s.mode.Down? && (step.byTick ==> s.mode.Up?) then
        s.(held := Some(Held(step.byTick, s.row)))
      else s
    else if step.Unlock? then s.(held := None)
    else if step.Crash? then s.(held := None, workers := map[], mode := Down)
    else if IsTickWrite(step) then (if TickMay(s) then TickWrites(s, step) else s)
    else if IsOverride(step) then
      if TickMay(s) && step.Cancel? then TickWrites(s, step)
      else if OperatorMay(s) then OperatorWrites(s, step)
      else s
    else if IsRecovery(step) then RecoveryMoves(s, step)
    else WorkerMoves(s, step)
  }

  function Run(s: System, steps: seq<Step>): System
    decreases |steps|
  {
    if |steps| == 0 then s else Run(Next(s, steps[0]), steps[1..])
  }

  // ----- what every run keeps -----

  /** A row carries the reference of its current try, or none. */
  predicate WellRow(r: Row) {
    && !r.state.Unexpanded?
    && (r.state.Scheduled? ==> r.ref == NoRef)
    && (r.state.Queued? || r.state.Running? || r.state.UpForRetry? ==> r.ref.Attempt? && r.tries >= 1)
    && (r.ref.Attempt? ==> r.ref.n == r.tries)
  }

  predicate WellWorker(w: Worker, row: Row) {
    WellRow(w.ti) && w.ti.ref == Attempt(w.ti.tries) && 1 <= w.ti.tries <= row.tries
  }

  predicate MayCoexist(v: Worker, w: Worker) {
    v.ti.tries != w.ti.tries || (v.stage.Polling? && w.stage.Polling?)
  }

  /** Only pollers may share a reference. */
  ghost predicate WellWorkers(s: System) {
    && (forall i :: i in s.workers ==> WellWorker(s.workers[i], s.row))
    && (forall i, j :: i in s.workers && j in s.workers && i != j ==> MayCoexist(s.workers[i], s.workers[j]))
    && (!s.mode.Up? ==> (forall i :: i in s.workers ==> s.workers[i].stage.Polling?))
  }

  /** While the lock is held the row keeps its try, except that a refund may give it back. */
  predicate WellHeld(s: System) {
    s.held.Some? ==>
      var snap := s.held.value.snap;
      && WellRow(snap)
      && (snap.state.Scheduled? ==> s.row == snap)
      && (|| (s.row.ref == snap.ref && s.row.tries == snap.tries)
          || (snap.ref.Attempt? && s.row.ref == NoRef && s.row.tries + 1 == snap.tries))
  }

  ghost predicate WellRecord(s: System) {
    && (forall m :: m in s.recorded ==> m <= s.row.tries)
    && (s.row.state.Queued? || s.row.state.Running? ==> s.row.tries !in s.recorded)
    && (s.row.state.UpForRetry? ==> s.row.tries in s.recorded)
    && (forall i :: i in s.workers && !s.workers[i].stage.Polling? ==> s.workers[i].ti.tries !in s.recorded)
  }

  predicate WellMode(s: System) {
    match s.mode
    case Down => s.workers == map[] && s.held.None?
    case QueuedPass(Some(todo)) =>
      s.workers == map[] && todo.state.Queued? && WellRow(todo) && (Applies(s.row, todo.ref) ==> s.row == todo)
    case RunningPass(Some(todo)) => todo.state.Running? && WellRow(todo) && todo.tries <= s.row.tries
    case _ => true
  }

  ghost predicate Inv(s: System) {
    WellRow(s.row) && WellWorkers(s) && WellHeld(s) && WellRecord(s) && WellMode(s)
  }

  lemma RecordingKeepsInv(s: System, ti: Row, o: Outcome)
    requires Inv(s) && WellRow(ti) && ti.ref.Attempt?
    requires !s.mode.QueuedPass? || s.mode.todo.None?
    requires forall i :: i in s.workers && s.workers[i].ti.tries == ti.tries ==> s.workers[i].stage.Polling?
    ensures Inv(Recording(s, ti, o))
  {
  }

  lemma LeavingKeepsInv(s: System, id: nat)
    requires Inv(s)
    ensures Inv(Leaves(s, id))
  {
  }

  lemma TickKeepsInv(s: System, step: Step)
    requires Inv(s) && TickMay(s) && (IsTickWrite(step) || step.Cancel?)
    ensures Inv(TickWrites(s, step))
  {
  }

  lemma OperatorKeepsInv(s: System, step: Step)
    requires Inv(s) && OperatorMay(s) && IsOverride(step)
    ensures Inv(OperatorWrites(s, step))
  {
  }

  lemma RefundKeepsInv(s: System, id: nat)
    requires Inv(s) && id in s.workers && s.workers[id].stage.Launching? && Applies(s.row, s.workers[id].ti.ref)
    ensures Inv(Leaves(s.(row := Refunded(s.workers[id].ti)), id))
  {
  }

  lemma AttachKeepsInv(s: System, id: nat, ti: Row)
    requires Inv(s) && id !in s.workers && WellRow(ti) && ti.ref.Attempt? && 1 <= ti.tries <= s.row.tries
    requires !s.mode.Down? && (s.mode.QueuedPass? ==> s.mode.todo.None?)
    requires forall i :: i in s.workers && s.workers[i].ti.tries == ti.tries ==> s.workers[i].stage.Polling?
    ensures Inv(s.(workers := s.workers[id := Worker(Polling, ti)]))
  {
  }

  lemma RecoverQueuedKeepsInv(s: System, id: nat, probe: Probe, dbError: bool)
    requires Inv(s)
    ensures Inv(RecoveryMoves(s, RecoverQueued(id, probe, dbError)))
  {
    if s.mode.QueuedPass? && s.mode.todo.Some? {
      var ti := s.mode.todo.value;
      var t := s.(mode := QueuedPass(None));
      assert Inv(t);
      match probe
      case Exited(code) => RecordingKeepsInv(t, ti, ExitedWith(code));
      case StillRunning =>
        if Applies(s.row, ti.ref) {
          AttachKeepsInv(t.(row := ti.(state := Running)), id, ti.(state := Running));
        }
      case _ =>
    }
  }

  lemma RecoverRunningKeepsInv(s: System, id: nat, probe: Probe, dbError: bool)
    requires Inv(s)
    ensures Inv(RecoveryMoves(s, RecoverRunning(id, probe, dbError)))
  {
    if s.mode.RunningPass? && s.mode.todo.Some? {
      var ti := s.mode.todo.value;
      var t := s.(mode := Up);
      assert Inv(t);
      match probe
      case Exited(code) => RecordingKeepsInv(t, ti, ExitedWith(code));
      case StillRunning => if id !in s.workers { AttachKeepsInv(t, id, ti); }
      case Unknown => RecordingKeepsInv(t, ti, Lost);
      case ProbeError =>
    }
  }

  lemma RecordThenLeave(s: System, id: nat, o: Outcome)
    requires Inv(s) && id in s.workers && !s.workers[id].stage.Started?
    ensures Inv(Leaves(Recording(s, s.workers[id].ti, o), id))
  {
    LeavingKeepsInv(s, id);
    RecordingKeepsInv(Leaves(s, id), s.workers[id].ti, o);
    assert Leaves(Recording(s, s.workers[id].ti, o), id) == Recording(Leaves(s, id), s.workers[id].ti, o);
  }

  lemma MarkRunningKeepsInv(s: System, id: nat)
    requires Inv(s) && id in s.workers && s.workers[id].stage.Started? && Applies(s.row, s.workers[id].ti.ref)
    ensures
      var ti := s.workers[id].ti.(state := Running);
      Inv(s.(row := ti, workers := s.workers[id := Worker(Polling, ti)]))
  {
  }

  lemma WorkerKeepsInv(s: System, step: Step)
    requires Inv(s) && IsWorkerStep(step)
    ensures Inv(WorkerMoves(s, step))
  {
    var id := step.id;
    if id in s.workers {
      LeavingKeepsInv(s, id);
      match step
      case LaunchFails(_, _) => if s.workers[id].stage.Launching? { RecordThenLeave(s, id, Lost); }
      case LaunchRefused(_, _) =>
        if s.workers[id].stage.Launching? && Applies(s.row, s.workers[id].ti.ref) { RefundKeepsInv(s, id); }
      case MarkRunning(_, _) =>
        if s.workers[id].stage.Started? && Applies(s.row, s.workers[id].ti.ref) { MarkRunningKeepsInv(s, id); }
      case Poll(_, o, _) => if s.workers[id].stage.Polling? { RecordThenLeave(s, id, o); }
      case _ =>
    }
  }

  lemma StepKeepsInv(s: System, step: Step)
    requires Inv(s)
    ensures Inv(Next(s, step))
  {
    if IsTickWrite(step) {
      if TickMay(s) { TickKeepsInv(s, step); }
    } else if IsOverride(step) {
      if TickMay(s) && step.Cancel? {
        TickKeepsInv(s, step);
      } else if OperatorMay(s) {
        OperatorKeepsInv(s, step);
      }
    } else if step.RecoverQueued? {
      RecoverQueuedKeepsInv(s, step.id, step.probe, step.dbError);
    } else if step.RecoverRunning? {
      RecoverRunningKeepsInv(s, step.id, step.probe, step.dbError);
    } else if IsWorkerStep(step) {
      WorkerKeepsInv(s, step);
    }
  }

  lemma {:induction false} RunKeepsInv(s: System, steps: seq<Step>)
    requires Inv(s)
    ensures Inv(Run(s, steps))
    decreases |steps|
  {
    if |steps| > 0 {
      StepKeepsInv(s, steps[0]);
      RunKeepsInv(Next(s, steps[0]), steps[1..]);
    }
  }

  // ----- a poller whose reference is gone -----

  /** Reference `m` was handed out and the row has since been cleared of it. */
  predicate Gone(s: System, m: nat) {
    s.row.ref != Attempt(m) && m <= s.row.tries
  }

  lemma StrangerWritesNothing(s: System, step: Step)
    requires IsWorkerStep(step) && (step.id !in s.workers || s.workers[step.id].ti.ref != s.row.ref)
    ensures Next(s, step).row == s.row
  {
  }

  lemma WorkerWritesOnlyItsOwn(s: System, step: Step)
    requires Inv(s) && IsWorkerStep(step)
    ensures step.id !in s.workers || s.workers[step.id].ti.ref != s.row.ref ==> Next(s, step).row == s.row
    ensures Next(s, step).row != s.row ==> s.row.ref == Attempt(s.row.tries)
    ensures
      || (Next(s, step).row.ref == s.row.ref && Next(s, step).row.tries == s.row.tries)
      || (step.id in s.workers && Next(s, step).row == Refunded(s.workers[step.id].ti))
  {
    if step.id !in s.workers || s.workers[step.id].ti.ref != s.row.ref {
      StrangerWritesNothing(s, step);
    } else {
      assert WellWorker(s.workers[step.id], s.row);
    }
  }

  lemma StepKeepsGone(s: System, step: Step, m: nat)
    requires Inv(s) && Gone(s, m)
    ensures Gone(Next(s, step), m)
  {
    if IsWorkerStep(step) {
      WorkerWritesOnlyItsOwn(s, step);
    }
  }

  lemma {:induction false} GoneForever(s: System, steps: seq<Step>, m: nat)
    requires Inv(s) && Gone(s, m)
    ensures Inv(Run(s, steps)) && Gone(Run(s, steps), m)
    decreases |steps|
  {
    if |steps| > 0 {
      StepKeepsInv(s, steps[0]);
      StepKeepsGone(s, steps[0], m);
      GoneForever(Next(s, steps[0]), steps[1..], m);
    }
  }

  /**
   Once an attempt's reference has been cleared or replaced, its poller never
   changes the row again, whatever happens in between.
   */
  lemma StalePollerIsPowerless(max: nat, before: seq<Step>, id: nat, after: seq<Step>, step: Step)
    requires
      var s := Run(Start(max), before);
      id in s.workers && s.workers[id].ti.ref != s.row.ref
    requires
      var t := Run(Run(Start(max), before), after);
      IsWorkerStep(step) && step.id in t.workers
      && t.workers[step.id].ti.ref == Run(Start(max), before).workers[id].ti.ref
    ensures
      var t := Run(Run(Start(max), before), after);
      Next(t, step).row == t.row
  {
    RunKeepsInv(Start(max), before);
    var s := Run(Start(max), before);
    GoneForever(s, after, s.workers[id].ti.tries);
    WorkerWritesOnlyItsOwn(Run(s, after), step);
  }

  // ----- a finished row stays as it is -----

  ghost predicate Carried(s: System, ref: Ref) {
    exists i :: i in s.workers && s.workers[i].ti.ref == ref
  }

  /** Recovery's second listing picks up a row that its first pass already attached a poller to. */
  ghost predicate Twin(s: System, step: Step) {
    step.ListRunning? && s.mode == QueuedPass(None) && s.row.state.Running? && Carried(s, s.row.ref)
  }

  ghost predicate Twinless(s: System, steps: seq<Step>)
    decreases |steps|
  {
    |steps| > 0 ==> !Twin(s, steps[0]) && Twinless(Next(s, steps[0]), steps[1..])
  }

  /** No two goroutines work for one reference, and none for one that is up for retry. */
  ghost predicate Single(s: System) {
    && (forall i, j :: i in s.workers && j in s.workers && i != j ==> s.workers[i].ti.tries != s.workers[j].ti.tries)
    && (s.row.state.UpForRetry? ==> !Carried(s, s.row.ref))
    && (s.held.Some? && s.held.value.byTick && s.held.value.snap.state.UpForRetry? ==> s.row == s.held.value.snap)
    && (s.mode.RunningPass? && s.mode.todo.Some? ==>
          !Carried(s, s.mode.todo.value.ref) && (s.row.state.UpForRetry? ==> s.row.ref != s.mode.todo.value.ref))
  }

  lemma TickKeepsSingle(s: System, step: Step)
    requires Inv(s) && Single(s) && TickMay(s) && (IsTickWrite(step) || step.Cancel?)
    ensures Single(TickWrites(s, step))
  {
  }

  lemma OperatorKeepsSingle(s: System, step: Step)
    requires Inv(s) && Single(s) && OperatorMay(s) && IsOverride(step)
    ensures Single(OperatorWrites(s, step))
  {
  }

  lemma RecoveryKeepsSingle(s: System, step: Step)
    requires Inv(s) && Single(s) && IsRecovery(step) && !Twin(s, step)
    ensures Single(RecoveryMoves(s, step))
  {
    match step
    case ListQueued =>
    case RecoverQueued(_, _, _) => RecoverQueuedKeepsSingle(s, step);
    case ListRunning =>
    case RecoverRunning(_, _, _) => RecoverRunningKeepsSingle(s, step);
  }

  lemma RecoverQueuedKeepsSingle(s: System, step: Step)
    requires Inv(s) && Single(s) && step.RecoverQueued?
    ensures Single(RecoveryMoves(s, step))
  {
  }

  lemma RecoverRunningKeepsSingle(s: System, step: Step)
    requires Inv(s) && Single(s) && step.RecoverRunning?
    ensures Single(RecoveryMoves(s, step))
  {
    if s.mode.RunningPass? && s.mode.todo.Some? {
      var ti := s.mode.todo.value;
      var t := s.(mode := Up);
      assert Single(t);
      match step.probe
      case Exited(code) => RecordingUncarriedKeepsSingle(t, ti, ExitedWith(code));
      case Unknown => RecordingUncarriedKeepsSingle(t, ti, Lost);
      case _ =>
    }
  }

  lemma RecordingUncarriedKeepsSingle(s: System, ti: Row, o: Outcome)
    requires Single(s) && s.mode.Up? && !Carried(s, ti.ref)
    requires s.held.Some? && s.held.value.byTick && s.row.ref == ti.ref ==> !s.held.value.snap.state.UpForRetry?
    ensures Single(Recording(s, ti, o))
  {
  }

  /** A goroutine's step starts no other and changes no reference. */
  lemma WorkerKeepsCarriers(s: System, step: Step)
    requires IsWorkerStep(step)
    ensures
      var t := WorkerMoves(s, step);
      && t.held == s.held && t.mode == s.mode
      && (forall i :: i in t.workers ==>
            && i in s.workers && t.workers[i].ti.tries == s.workers[i].ti.tries
            && t.workers[i].ti.ref == s.workers[i].ti.ref)
      && (t.row != s.row && t.row.state.UpForRetry? ==> step.id in s.workers && step.id !in t.workers)
  {
  }

  lemma WorkerLeavesNoTwin(s: System, step: Step)
    requires Inv(s) && Single(s) && IsWorkerStep(step)
    ensures
      var t := WorkerMoves(s, step);
      t.row.state.UpForRetry? ==> !Carried(t, t.row.ref)
  {
    var t := WorkerMoves(s, step);
    WorkerKeepsCarriers(s, step);
    if t.row != s.row && t.row.state.UpForRetry? {
      assert s.workers[step.id].ti.ref == t.row.ref;
    }
  }

  lemma WorkerKeepsHolderExact(s: System, step: Step)
    requires Inv(s) && Single(s) && IsWorkerStep(step)
    ensures s.row.state.UpForRetry? ==> WorkerMoves(s, step).row == s.row
    ensures
      var t := WorkerMoves(s, step);
      s.mode.RunningPass? && s.mode.todo.Some? && t.row.state.UpForRetry? ==> t.row.ref != s.mode.todo.value.ref
  {
    WorkerKeepsCarriers(s, step);
    if step.id in s.workers {
      assert Carried(s, s.workers[step.id].ti.ref);
    }
  }

  lemma WorkerKeepsSingle(s: System, step: Step)
    requires Inv(s) && Single(s) && IsWorkerStep(step)
    ensures Single(WorkerMoves(s, step))
  {
    WorkerKeepsCarriers(s, step);
    WorkerLeavesNoTwin(s, step);
    WorkerKeepsHolderExact(s, step);
  }

  lemma StepKeepsSingle(s: System, step: Step)
    requires Inv(s) && Single(s) && !Twin(s, step)
    ensures Single(Next(s, step))
  {
    if IsTickWrite(step) {
      if TickMay(s) { TickKeepsSingle(s, step); }
    } else if IsOverride(step) {
      if TickMay(s) && step.Cancel? {
        TickKeepsSingle(s, step);
      } else if OperatorMay(s) {
        OperatorKeepsSingle(s, step);
      }
    } else if IsRecovery(step) {
      RecoveryKeepsSingle(s, step);
    } else if IsWorkerStep(step) {
      WorkerKeepsSingle(s, step);
    }
  }

  lemma {:induction false} RunKeepsSingle(s: System, steps: seq<Step>)
    requires Inv(s) && Single(s) && Twinless(s, steps)
    ensures Inv(Run(s, steps)) && Single(Run(s, steps))
    decreases |steps|
  {
    if |steps| > 0 {
      StepKeepsInv(s, steps[0]);
      StepKeepsSingle(s, steps[0]);
      RunKeepsSingle(Next(s, steps[0]), steps[1..]);
    }
  }

  /** Apart from overrides, only a requeue changes a finished row, by a tick that read it as up for retry. */
  lemma OnlyARequeueOverwrites(s: System, step: Step)
    requires Inv(s) && s.row.state.IsTerminal() && !IsOverride(step)
    ensures Next(s, step).row != s.row <==> step.Requeue? && TickMay(s) && s.held.value.snap.state.UpForRetry?
  {
  }

  /** In every run without twin pollers, only a cancel, discard, mark, release or retry changes a finished row. */
  lemma FinishedStaysFinished(max: nat, steps: seq<Step>, step: Step)
    requires Twinless(Start(max), steps)
    requires Run(Start(max), steps).row.state.IsTerminal() && !IsOverride(step)
    ensures Next(Run(Start(max), steps), step).row == Run(Start(max), steps).row
  {
    RunKeepsSingle(Start(max), steps);
    OnlyARequeueOverwrites(Run(Start(max), steps), step);
  }

  // ----- the tick's unguarded requeue -----

  ghost predicate AllWorkerSteps(steps: seq<Step>) {
    forall k :: 0 <= k < |steps| ==> IsWorkerStep(steps[k])
  }

  lemma {:induction false} UncarriedRowStandsStill(s: System, steps: seq<Step>)
    requires Inv(s) && !Carried(s, s.row.ref) && AllWorkerSteps(steps)
    ensures Run(s, steps).row == s.row
    decreases |steps|
  {
    if |steps| > 0 {
      assert IsWorkerStep(steps[0]);
      var t := Next(s, steps[0]);
      StepKeepsInv(s, steps[0]);
      WorkerWritesOnlyItsOwn(s, steps[0]);
      WorkerKeepsCarriers(s, steps[0]);
      assert t == WorkerMoves(s, steps[0]);
      assert t.row == s.row;
      UncarriedRowStandsStill(t, steps[1..]);
    }
  }

  lemma RunOne(s: System, step: Step)
    ensures Run(s, [step]) == Next(s, step)
  {
    assert Run(Next(s, step), [step][1..]) == Next(s, step);
  }

  lemma PollLands(s: System, id: nat)
    requires Inv(s) && s.row.state.UpForRetry? && id in s.workers && s.workers[id].ti.ref == s.row.ref
    ensures AllWorkerSteps([Poll(id, ExitedWith(0), false)])
    ensures Run(s, [Poll(id, ExitedWith(0), false)]).row.state.IsTerminal()
  {
    assert WellWorker(s.workers[id], s.row) && s.workers[id].stage.Polling?;
    RunOne(s, Poll(id, ExitedWith(0), false));
  }

  /**
   The tick read the row as up for retry and will requeue it with an unguarded
   write. An outcome can still land in between, and be lost, exactly when some
   goroutine works for the row's reference.
   */
  lemma RequeueMayLoseAnOutcomeIffCarried(s: System)
    requires Inv(s) && TickMay(s) && s.held.value.snap == s.row && s.row.state.UpForRetry?
    ensures (exists steps :: AllWorkerSteps(steps) && Run(s, steps).row.state.IsTerminal()) <==> Carried(s, s.row.ref)
  {
    if Carried(s, s.row.ref) {
      var id :| id in s.workers && s.workers[id].ti.ref == s.row.ref;
      PollLands(s, id);
    } else {
      forall steps | AllWorkerSteps(steps)
        ensures Run(s, steps).row == s.row
      {
        UncarriedRowStandsStill(s, steps);
      }
    }
  }

  lemma {:induction false} RunAppend(s: System, front: seq<Step>, last: seq<Step>)
    ensures Run(s, front + last) == Run(Run(s, front), last)
    decreases |front|
  {
    if |front| == 0 {
      assert front + last == last;
    } else {
      assert (front + last)[1..] == front[1..] + last;
      RunAppend(Next(s, front[0]), front[1..], last);
    }
  }

  lemma RunThree(s: System, a: Step, b: Step, c: Step)
    ensures Run(s, [a, b, c]) == Next(Next(Next(s, a), b), c)
  {
    RunOne(Next(Next(s, a), b), c);
    assert [a, b, c][1..] == [b, c] && [b, c][1..] == [c];
    assert Run(Next(s, a), [b, c]) == Run(Next(Next(s, a), b), [c]);
  }

  const CRASHING := [Lock(true), Dispatch(0), Crash]
  const REATTACHING := [ListQueued, RecoverQueued(1, StillRunning, false), ListRunning]
  const POLLING := [RecoverRunning(2, StillRunning, false), Poll(1, Lost, false), Lock(true)]

  function Twins(max: nat): System {
    var ti := Row(UpForRetry, 1, max, Attempt(1));
    System(ti, Some(Held(true, ti)), map[2 := Worker(Polling, ti.(state := Running))], Up, {1})
  }

  function CrashedEarly(max: nat): System {
    System(Row(Queued, 1, max, Attempt(1)), None, map[], Down, {})
  }

  function ListedAgain(max: nat): System {
    var running := Row(Running, 1, max, Attempt(1));
    System(running, None, map[1 := Worker(Polling, running)], RunningPass(Some(running)), {})
  }

  lemma CrashBeforeRunning(max: nat)
    ensures Run(Start(max), CRASHING) == CrashedEarly(max)
  {
    RunThree(Start(max), Lock(true), Dispatch(0), Crash);
  }

  lemma AttachedAndListedAgain(max: nat)
    ensures Run(CrashedEarly(max), REATTACHING) == ListedAgain(max)
  {
    RunThree(CrashedEarly(max), ListQueued, RecoverQueued(1, StillRunning, false), ListRunning);
  }

  function TwoPollers(max: nat): System {
    var w := Worker(Polling, Row(Running, 1, max, Attempt(1)));
    System(w.ti, None, map[1 := w, 2 := w], Up, {})
  }

  lemma SecondPollerAttached(max: nat)
    ensures Next(ListedAgain(max), RecoverRunning(2, StillRunning, false)) == TwoPollers(max)
  {
  }

  lemma FirstPollerLeaves(max: nat)
    requires max >= 1
    ensures Next(Next(TwoPollers(max), Poll(1, Lost, false)), Lock(true)) == Twins(max)
  {
    assert TwoPollers(max).workers - {1} == Twins(max).workers;
  }

  lemma AttachedTwice(max: nat)
    requires max >= 1
    ensures Run(ListedAgain(max), POLLING) == Twins(max)
  {
    SecondPollerAttached(max);
    FirstPollerLeaves(max);
    RunThree(ListedAgain(max), RecoverRunning(2, StillRunning, false), Poll(1, Lost, false), Lock(true));
  }

  lemma RecoveryMakesTwins(max: nat)
    requires max >= 1
    ensures Run(Start(max), CRASHING + REATTACHING + POLLING) == Twins(max)
  {
    CrashBeforeRunning(max);
    AttachedAndListedAgain(max);
    AttachedTwice(max);
    RunAppend(Start(max), CRASHING, REATTACHING);
    RunAppend(Start(max), CRASHING + REATTACHING, POLLING);
  }

  function LosingRun(): seq<Step> {
    CRASHING + REATTACHING + POLLING + [Poll(2, ExitedWith(0), false)]
  }

  lemma LosingRunIsUntouched()
    ensures Untouched(LosingRun())
  {
    assert Untouched(CRASHING) && Untouched(REATTACHING) && Untouched(POLLING);
  }

  function Overtaken(max: nat): System {
    Twins(max).(row := Row(Success, 1, max, Attempt(1)), workers := map[])
  }

  lemma SecondPollerSucceeds(max: nat)
    ensures Next(Twins(max), Poll(2, ExitedWith(0), false)) == Overtaken(max)
  {
    assert Twins(max).workers - {2} == map[];
  }

  /**
   For every task with retries the promise fails: after a crash the second listing
   attaches a second poller, the first reports the attempt lost, the second records
   success, and the tick's requeue erases it.
   */
  lemma TwinsLoseASuccess(max: nat)
    requires max >= 1
    ensures Untouched(LosingRun())
    ensures Run(Start(max), LosingRun()).row.state.Success?
    ensures Next(Run(Start(max), LosingRun()), Requeue).row.state.Scheduled?
  {
    LosingRunIsUntouched();
    RecoveryMakesTwins(max);
    SecondPollerSucceeds(max);
    RunAppend(Start(max), CRASHING + REATTACHING + POLLING, [Poll(2, ExitedWith(0), false)]);
    RunOne(Twins(max), Poll(2, ExitedWith(0), false));
    assert Run(Start(max), LosingRun()) == Overtaken(max);
  }

  // ----- for which tasks a finished row is final -----

  /** No operator retry adopts a definition with retries. */
  ghost predicate GrantsNone(steps: seq<Step>) {
    forall k :: 0 <= k < |steps| ==> GrantsNoRetry(steps[k])
  }

  predicate GrantsNoRetry(step: Step) {
    step.Retry? ==> step.max == 0
  }

  predicate NoRetriesLeft(r: Row) {
    r.max == 0 && !r.state.UpForRetry?
  }

  ghost predicate Retryless(s: System) {
    && NoRetriesLeft(s.row)
    && (s.held.Some? ==> NoRetriesLeft(s.held.value.snap))
    && (forall i :: i in s.workers ==> s.workers[i].ti.max == 0)
    && ((s.mode.QueuedPass? || s.mode.RunningPass?) && s.mode.todo.Some? ==> s.mode.todo.value.max == 0)
  }

  lemma TickKeepsRetryless(s: System, step: Step)
    requires Retryless(s) && TickMay(s) && (IsTickWrite(step) || step.Cancel?)
    ensures Retryless(TickWrites(s, step))
  {
  }

  lemma OperatorKeepsRetryless(s: System, step: Step)
    requires Retryless(s) && OperatorMay(s) && IsOverride(step) && GrantsNoRetry(step)
    ensures Retryless(OperatorWrites(s, step))
  {
  }

  lemma WorkerKeepsRetryless(s: System, step: Step)
    requires Inv(s) && Retryless(s) && IsWorkerStep(step)
    ensures Retryless(WorkerMoves(s, step))
  {
  }

  lemma RecoveryKeepsRetryless(s: System, step: Step)
    requires Inv(s) && Retryless(s) && IsRecovery(step)
    ensures Retryless(RecoveryMoves(s, step))
  {
    if step.RecoverQueued? {
      RecoverQueuedKeepsRetryless(s, step);
    }
  }

  lemma RecoverQueuedKeepsRetryless(s: System, step: Step)
    requires Inv(s) && Retryless(s) && step.RecoverQueued?
    ensures Retryless(RecoveryMoves(s, step))
  {
  }

  lemma StepKeepsRetryless(s: System, step: Step)
    requires Inv(s) && Retryless(s) && GrantsNoRetry(step)
    ensures Retryless(Next(s, step))
  {
    if IsTickWrite(step) {
      if TickMay(s) { TickKeepsRetryless(s, step); }
    } else if IsOverride(step) {
      if TickMay(s) && step.Cancel? {
        TickKeepsRetryless(s, step);
      } else if OperatorMay(s) {
        OperatorKeepsRetryless(s, step);
      }
    } else if IsRecovery(step) {
      RecoveryKeepsRetryless(s, step);
    } else if IsWorkerStep(step) {
      WorkerKeepsRetryless(s, step);
    }
  }

  lemma {:induction false} RunKeepsRetryless(s: System, steps: seq<Step>)
    requires Inv(s) && Retryless(s) && GrantsNone(steps)
    ensures Inv(Run(s, steps)) && Retryless(Run(s, steps))
    decreases |steps|
  {
    if |steps| > 0 {
      StepKeepsInv(s, steps[0]);
      StepKeepsRetryless(s, steps[0]);
      RunKeepsRetryless(Next(s, steps[0]), steps[1..]);
    }
  }

  ghost predicate FinalAfter(max: nat, steps: seq<Step>, step: Step) {
    var s := Run(Start(max), steps);
    !IsOverride(step) && s.row.state.IsTerminal() ==> Next(s, step).row == s.row
  }

  /**
   A finished row is final, but for overrides, in every run of a task exactly when the
   task has no retries: whether operators act in between (without granting retries) or not.
   */
  lemma FinalIffNoRetries(max: nat)
    ensures (forall steps, step :: Untouched(steps) ==> FinalAfter(max, steps, step)) <==> max == 0
    ensures (forall steps, step :: GrantsNone(steps) ==> FinalAfter(max, steps, step)) <==> max == 0
  {
    if max == 0 {
      forall steps, step | GrantsNone(steps)
        ensures FinalAfter(max, steps, step)
      {
        RunKeepsRetryless(Start(max), steps);
        if Run(Start(max), steps).row.state.IsTerminal() && !IsOverride(step) {
          OnlyARequeueOverwrites(Run(Start(max), steps), step);
        }
      }
      assert forall steps :: Untouched(steps) ==> GrantsNone(steps);
    } else {
      TwinsLoseASuccess(max);
      assert !FinalAfter(max, LosingRun(), Requeue);
      assert GrantsNone(LosingRun());
    }
  }

  // ----- what the row says happened -----

  predicate Unfinished(r: Row) {
    r.state in {Scheduled, Queued, Running, UpForRetry}
  }

  /** The step carries the attempt's exit code, or word that it is lost, for the attempt whose row was copied as `ti`. */
  predicate Reports(s: System, step: Step, id: nat, ti: Row, o: Outcome) {
    || (step == Poll(id, o, false) && id in s.workers && s.workers[id] == Worker(Polling, ti))
    || (step == LaunchFails(id, false) && o.Lost? && id in s.workers && s.workers[id] == Worker(Launching, ti))
    || (o.ExitedWith? && step == RecoverQueued(id, Exited(o.code), false) && id !in s.workers
        && s.mode == QueuedPass(Some(ti)))
    || (o.ExitedWith? && step == RecoverRunning(id, Exited(o.code), false) && id !in s.workers
        && s.mode == RunningPass(Some(ti)))
    || (o.Lost? && step == RecoverRunning(id, Unknown, false) && id !in s.workers && s.mode == RunningPass(Some(ti)))
  }

  /**
   A report about the unfinished row's own attempt settles the row: exit code 0 is a success,
   99 a skip, and anything else a retry while retries are left and a failure after that. A
   report about any other attempt changes nothing.
   */
  lemma ReportSettlesTheRow(s: System, step: Step, id: nat, ti: Row, o: Outcome)
    requires Reports(s, step, id, ti, o)
    ensures s.row.ref == ti.ref && Unfinished(s.row) ==>
      var r := Next(s, step).row;
      && r.tries == ti.tries && r.max == ti.max && r.ref == ti.ref
      && r.state in {Success, Skipped, UpForRetry, Failed}
      && (r.state.Success? <==> o == ExitedWith(0))
      && (r.state.Skipped? <==> o == ExitedWith(99))
      && (r.state.UpForRetry? <==> o != ExitedWith(0) && o != ExitedWith(99) && ti.tries <= ti.max)
    ensures s.row.ref != ti.ref || s.row.state.IsTerminal() ==> Next(s, step).row == s.row
  {
  }

  /** Which steps, going by what they saw, can have put the row in a state. */
  predicate Explains(step: Step, state: TaskState) {
    match state
    case Success => SawExit(step, 0) || step == Mark(Success)
    case Skipped => SawExit(step, 99) || step.SkipTask? || step == Mark(Skipped)
    case UpForRetry => SawFailure(step)
    case Failed => SawFailure(step) || step.GiveUpWaiting? || step == Mark(Failed)
    case UpstreamFailed => step.BlockOut?
    case Cancelled => step.Cancel?
    case TimedOut => step.TimeOut?
    case Queued => step.Dispatch?
    case Running => (step.MarkRunning? && !step.dbError) || (step.RecoverQueued? && step.probe.StillRunning?)
    case Scheduled => step.Requeue? || step.Release? || step.Retry? || step.LaunchRefused?
                      || (step.RecoverQueued? && step.probe.Unknown?)
    case Unexpanded => false
  }

  predicate SawExit(step: Step, code: int) {
    || (step.Poll? && step.o == ExitedWith(code) && !step.dbError)
    || ((step.RecoverQueued? || step.RecoverRunning?) && step.probe == Exited(code) && !step.dbError)
  }

  /** An exit code other than success and skip, or no process. */
  predicate SawFailure(step: Step) {
    || (step.Poll? && step.o != ExitedWith(0) && step.o != ExitedWith(99) && !step.dbError)
    || ((step.RecoverQueued? || step.RecoverRunning?) && step.probe.Exited? && step.probe.code !in {0, 99} && !step.dbError)
    || (step.RecoverRunning? && step.probe.Unknown? && !step.dbError)
    || (step.LaunchFails? && !step.dbError)
  }

  lemma StepExplains(s: System, step: Step)
    ensures Next(s, step).row.state != s.row.state ==> Explains(step, Next(s, step).row.state)
    ensures step.LaunchRefused? && Next(s, step).row != s.row && WellWorkers(s)
         ==> Next(s, step).row.tries == s.workers[step.id].ti.tries - 1
  {
  }

  lemma {:induction false} LastChange(s: System, steps: seq<Step>) returns (k: nat)
    ensures Run(s, steps).row.state != s.row.state ==> k < |steps| && Explains(steps[k], Run(s, steps).row.state)
    decreases |steps|
  {
    if |steps| == 0 {
      k := 0;
    } else {
      StepExplains(s, steps[0]);
      var n := LastChange(Next(s, steps[0]), steps[1..]);
      k := if Run(s, steps).row.state != Next(s, steps[0]).row.state then n + 1 else 0;
    }
  }

  /**
   In every run, whatever state the row has reached, some step accounts for it: so unless an
   operator marked it, a task is successful only after exit code 0 was seen, and skipped only
   after exit code 99 or by the tick's own decision.
   */
  lemma EveryStateHasItsCause(max: nat, steps: seq<Step>)
    ensures
      var state := Run(Start(max), steps).row.state;
      state.Scheduled? || exists k :: 0 <= k < |steps| && Explains(steps[k], state)
    ensures
      var state := Run(Start(max), steps).row.state;
      (forall k :: 0 <= k < |steps| ==> !steps[k].Mark?) ==>
        && (state.Success? ==> exists k :: 0 <= k < |steps| && SawExit(steps[k], 0))
        && (state.Skipped? ==> exists k :: 0 <= k < |steps| && (SawExit(steps[k], 99) || steps[k].SkipTask?))
  {
    var k := LastChange(Start(max), steps);
  }

  /** Whoever holds the lock with a fresh reading gets what it decides. */
  lemma DecisionsTakeEffect(s: System, step: Step)
    requires s.held.Some? && s.held.value.snap == s.row && s.mode.Up?
    ensures
      var r, row, tick := Next(s, step).row, s.row, s.held.value.byTick;
      && (step.Cancel? && Unfinished(row) ==> r == row.(state := TaskState.Cancelled))
      && (tick && step.BlockOut? && row.state.Scheduled? ==> r == row.(state := UpstreamFailed))
      && (tick && step.SkipTask? && row.state.Scheduled? ==> r == row.(state := Skipped))
      && (tick && step.GiveUpWaiting? && row.state.Scheduled? ==> r == row.(state := Failed))
      && (tick && step.TimeOut? && Unfinished(row) ==> r == row.(state := TimedOut))
      && (tick && step.Requeue? && row.state.UpForRetry? ==> r == Row(Scheduled, row.tries, row.max, NoRef))
      && (tick && step.Dispatch? && row.state.Scheduled? && step.id !in s.workers ==>
            r == Row(Queued, row.tries + 1, row.max, Attempt(row.tries + 1)))
      && (!tick && step.Mark? && step.target in {Success, Failed, Skipped} ==> r == row.(state := step.target))
      && (!tick && step.Release? && row.state.UpstreamFailed? ==> r == Row(Scheduled, row.tries, row.max, NoRef))
      && (!tick && step.Retry? ==> r == Row(Scheduled, row.tries, step.max, NoRef))
  {
  }

  /** An attempt that never executed goes back on schedule without having used up a try. */
  lemma NeverExecutedIsHandedBack(s: System, step: Step, id: nat, ti: Row)
    requires
      || (step == LaunchRefused(id, false) && id in s.workers && s.workers[id] == Worker(Launching, ti))
      || (step == RecoverQueued(id, Unknown, false) && s.mode == QueuedPass(Some(ti)) && id !in s.workers)
    ensures s.row.ref == ti.ref && Unfinished(s.row) && ti.tries > 0 ==>
      Next(s, step).row == Row(Scheduled, ti.tries - 1, ti.max, NoRef)
    ensures s.row.ref != ti.ref || s.row.state.IsTerminal() ==> Next(s, step).row == s.row
    ensures id !in Next(s, step).workers
  {
  }

  /** An attempt found still running after a restart is running again, with a goroutine to poll it. */
  lemma StillRunningIsPolled(s: System, step: Step, id: nat, ti: Row)
    requires id !in s.workers
    requires (step == RecoverQueued(id, StillRunning, false) && s.mode == QueuedPass(Some(ti)) && s.row == ti && Unfinished(ti))
          || (step == RecoverRunning(id, StillRunning, false) && s.mode == RunningPass(Some(ti)) && s.row == ti && ti.state.Running?)
    ensures Next(s, step).row == ti.(state := Running)
    ensures Next(s, step).workers == s.workers[id := Worker(Polling, ti.(state := Running))]
  {
  }

  // ----- goroutines and the row move together -----

  predicate WorkerInStep(w: Worker, row: Row) {
    w.ti.ref == row.ref && Unfinished(row) ==>
      if w.stage.Polling? then row.state.Running? || row.state.UpForRetry? else row.state.Queued?
  }

  ghost predicate InStep(s: System) {
    && (forall i :: i in s.workers ==> WorkerInStep(s.workers[i], s.row))
    && (s.mode.RunningPass? && s.mode.todo.Some? && s.mode.todo.value.ref == s.row.ref ==> !s.row.state.Queued?)
  }

  lemma TickKeepsInStep(s: System, step: Step)
    requires Inv(s) && InStep(s) && TickMay(s) && (IsTickWrite(step) || step.Cancel?)
    ensures InStep(TickWrites(s, step))
  {
  }

  lemma OperatorKeepsInStep(s: System, step: Step)
    requires Inv(s) && InStep(s) && OperatorMay(s) && IsOverride(step)
    ensures InStep(OperatorWrites(s, step))
  {
  }

  lemma WorkerKeepsInStep(s: System, step: Step)
    requires Inv(s) && InStep(s) && IsWorkerStep(step)
    ensures InStep(WorkerMoves(s, step))
  {
  }

  lemma RecoveryKeepsInStep(s: System, step: Step)
    requires Inv(s) && InStep(s) && IsRecovery(step)
    ensures InStep(RecoveryMoves(s, step))
  {
  }

  lemma StepKeepsInStep(s: System, step: Step)
    requires Inv(s) && InStep(s)
    ensures InStep(Next(s, step))
  {
    if IsTickWrite(step) {
      if TickMay(s) { TickKeepsInStep(s, step); }
    } else if IsOverride(step) {
      if TickMay(s) && step.Cancel? {
        TickKeepsInStep(s, step);
      } else if OperatorMay(s) {
        OperatorKeepsInStep(s, step);
      }
    } else if IsRecovery(step) {
      RecoveryKeepsInStep(s, step);
    } else if IsWorkerStep(step) {
      WorkerKeepsInStep(s, step);
    }
  }

  lemma {:induction false} RunKeepsInStep(s: System, steps: seq<Step>)
    requires Inv(s) && InStep(s)
    ensures InStep(Run(s, steps))
    decreases |steps|
  {
    if |steps| > 0 {
      StepKeepsInv(s, steps[0]);
      StepKeepsInStep(s, steps[0]);
      RunKeepsInStep(Next(s, steps[0]), steps[1..]);
    }
  }

  /**
   In every run: while the row is unfinished, a goroutine that works for its reference and has
   yet to report the process up finds it queued, and one that polls finds it running (or, a
   twin's report having come first, up for retry).
   */
  lemma GoroutinesFindTheirState(max: nat, steps: seq<Step>, id: nat)
    requires var s := Run(Start(max), steps); id in s.workers && s.workers[id].ti.ref == s.row.ref
    ensures
      var s := Run(Start(max), steps);
      Unfinished(s.row) ==>
        && (!s.workers[id].stage.Polling? ==> s.row.state.Queued?)
        && (s.workers[id].stage.Polling? ==> s.row.state.Running? || s.row.state.UpForRetry?)
  {
    RunKeepsInStep(Start(max), steps);
  }

  // ----- an unfinished task is never stuck -----

  lemma RunTwo(s: System, a: Step, b: Step)
    ensures Run(s, [a, b]) == Next(Next(s, a), b)
  {
    RunOne(Next(s, a), b);
    assert [a, b][1..] == [b];
  }

  /** No goroutine, nobody holding the lock. */
  function Quiet(row: Row, mode: Mode, recorded: set<nat>): System {
    System(row, None, map[], mode, recorded)
  }

  function Listed(row: Row): Option<Row> {
    if row.state.Queued? then Some(row) else None
  }

  lemma ListsQueued(row: Row, recorded: set<nat>)
    ensures Next(Quiet(row, Down, recorded), ListQueued) == Quiet(row, QueuedPass(Listed(row)), recorded)
  {
  }

  lemma ListsRunning(row: Row, recorded: set<nat>)
    ensures Next(Quiet(row, QueuedPass(None), recorded), ListRunning)
         == Quiet(row, RunningPass(if row.state.Running? then Some(row) else None), recorded)
  {
  }

  lemma QueuedRecovers(row: Row, recorded: set<nat>)
    requires row.state.Queued?
    ensures Run(Quiet(row, Down, recorded), [ListQueued, RecoverQueued(0, Exited(0), false)]).row.state.Success?
  {
    ListsQueued(row, recorded);
    RunTwo(Quiet(row, Down, recorded), ListQueued, RecoverQueued(0, Exited(0), false));
  }

  lemma RunningRecovers(row: Row, recorded: set<nat>)
    requires row.state.Running?
    ensures Run(Quiet(row, Down, recorded), [ListQueued, ListRunning, RecoverRunning(0, Exited(0), false)]).row.state.Success?
  {
    ListsQueued(row, recorded);
    ListsRunning(row, recorded);
    RunThree(Quiet(row, Down, recorded), ListQueued, ListRunning, RecoverRunning(0, Exited(0), false));
  }

  const RESTARTING := [ListQueued, ListRunning, RecoverRunning(0, ProbeError, false)]
  const TAKING_UP := [Lock(true), Requeue]
  const LAUNCHING := [Dispatch(0), LaunchWorks(0), MarkRunning(0, false)]
  const ENDING := [Poll(0, ExitedWith(0), false)]

  lemma OthersComeUp(row: Row, recorded: set<nat>)
    requires !row.state.Queued? && !row.state.Running?
    ensures Run(Quiet(row, Down, recorded), RESTARTING) == Quiet(row, Up, recorded)
  {
    ListsQueued(row, recorded);
    ListsRunning(row, recorded);
    RunThree(Quiet(row, Down, recorded), ListQueued, ListRunning, RecoverRunning(0, ProbeError, false));
  }

  /** The tick holds the lock and has read the row. */
  function Ticking(row: Row, workers: map<nat, Worker>, recorded: set<nat>): System {
    System(row, Some(Held(true, row)), workers, Up, recorded)
  }

  function BackOnSchedule(row: Row): Row {
    if row.state.UpForRetry? then row.(state := Scheduled, ref := NoRef) else row
  }

  lemma TickTakesItUp(row: Row, recorded: set<nat>)
    ensures Run(Quiet(row, Up, recorded), TAKING_UP) == Ticking(BackOnSchedule(row), map[], recorded)
  {
    assert Next(Quiet(row, Up, recorded), Lock(true)) == Ticking(row, map[], recorded);
    RunTwo(Quiet(row, Up, recorded), Lock(true), Requeue);
  }

  lemma ScheduledIsLaunched(row: Row, recorded: set<nat>)
    requires row.state.Scheduled?
    ensures
      var ti := row.(state := Queued, tries := row.tries + 1, ref := Attempt(row.tries + 1));
      && Next(Ticking(row, map[], recorded), Dispatch(0)) == Ticking(ti, map[0 := Worker(Launching, ti)], recorded)
      && Next(Ticking(ti, map[0 := Worker(Launching, ti)], recorded), LaunchWorks(0))
         == Ticking(ti, map[0 := Worker(Started, ti)], recorded)
  {
  }

  lemma StartedIsRunning(ti: Row, recorded: set<nat>)
    requires ti.state.Queued?
    ensures
      var up, running := Next(Ticking(ti, map[0 := Worker(Started, ti)], recorded), MarkRunning(0, false)), ti.(state := Running);
      up.row == running && up.workers == map[0 := Worker(Polling, running)] && up.held.Some?
  {
  }

  lemma PollEndsIt(s: System)
    requires s.row.state.Running? && 0 in s.workers && s.workers[0] == Worker(Polling, s.row)
    ensures Run(s, ENDING).row.state.Success?
  {
    RunOne(s, Poll(0, ExitedWith(0), false));
  }

  lemma ScheduledSucceeds(row: Row, recorded: set<nat>)
    requires row.state.Scheduled?
    ensures Run(Run(Ticking(row, map[], recorded), LAUNCHING), ENDING).row.state.Success?
  {
    var ti := row.(state := Queued, tries := row.tries + 1, ref := Attempt(row.tries + 1));
    ScheduledIsLaunched(row, recorded);
    StartedIsRunning(ti, recorded);
    RunThree(Ticking(row, map[], recorded), Dispatch(0), LaunchWorks(0), MarkRunning(0, false));
    PollEndsIt(Run(Ticking(row, map[], recorded), LAUNCHING));
  }

  lemma ComesUpAndSucceeds(row: Row, recorded: set<nat>)
    requires row.state.Scheduled? || row.state.UpForRetry?
    ensures Run(Quiet(row, Down, recorded), RESTARTING + (TAKING_UP + (LAUNCHING + ENDING))).row.state.Success?
  {
    OthersComeUp(row, recorded);
    TickTakesItUp(row, recorded);
    ScheduledSucceeds(BackOnSchedule(row), recorded);
    RunAppend(Ticking(BackOnSchedule(row), map[], recorded), LAUNCHING, ENDING);
    RunAppend(Quiet(row, Up, recorded), TAKING_UP, LAUNCHING + ENDING);
    RunAppend(Quiet(row, Down, recorded), RESTARTING, TAKING_UP + (LAUNCHING + ENDING));
  }

  /** The steps after a crash that bring an unfinished row to success. */
  function Reviving(row: Row): (steps: seq<Step>)
    ensures Untouched(steps)
  {
    if row.state.Queued? then [ListQueued, RecoverQueued(0, Exited(0), false)]
    else if row.state.Running? then [ListQueued, ListRunning, RecoverRunning(0, Exited(0), false)]
    else RESTARTING + (TAKING_UP + (LAUNCHING + ENDING))
  }

  /**
   Whatever has happened, writes and goroutines lost on the way included, an unfinished task
   can still succeed without an operator: at the latest a restart finds its attempt again.
   */
  lemma UnfinishedCanStillSucceed(max: nat, before: seq<Step>) returns (steps: seq<Step>)
    requires Unfinished(Run(Start(max), before).row)
    ensures Untouched(steps) && Run(Run(Start(max), before), steps).row.state.Success?
  {
    var s := Run(Start(max), before);
    steps := [Crash] + Reviving(s.row);
    RunOne(s, Crash);
    RunAppend(s, [Crash], Reviving(s.row));
    if s.row.state.Queued? {
      QueuedRecovers(s.row, s.recorded);
    } else if s.row.state.Running? {
      RunningRecovers(s.row, s.recorded);
    } else {
      ComesUpAndSucceeds(s.row, s.recorded);
    }
  }

  // ----- how many attempts a task gets -----

  predicate InBudget(r: Row, max: nat) {
    && r.max == max
    && r.tries <= max + 1
    && (r.state.Scheduled? || r.state.UpForRetry? ==> r.tries <= max)
    && (r.state.Queued? || r.state.Running? ==> 1 <= r.tries)
  }

  ghost predicate Budgeted(s: System, max: nat) {
    && InBudget(s.row, max)
    && (s.held.Some? ==> InBudget(s.held.value.snap, max))
    && (forall i :: i in s.workers ==> InBudget(s.workers[i].ti, max) && 1 <= s.workers[i].ti.tries)
    && ((s.mode.QueuedPass? || s.mode.RunningPass?) && s.mode.todo.Some?
        ==> InBudget(s.mode.todo.value, max) && 1 <= s.mode.todo.value.tries)
  }

  lemma TickKeepsBudget(s: System, step: Step, max: nat)
    requires Budgeted(s, max) && TickMay(s) && IsTickWrite(step)
    ensures Budgeted(TickWrites(s, step), max)
    ensures TickWrites(s, step).row.state.Failed? && !s.row.state.Failed? ==> step.GiveUpWaiting?
  {
  }

  lemma RecoverQueuedKeepsBudget(s: System, step: Step, max: nat)
    requires Budgeted(s, max) && step.RecoverQueued?
    ensures Budgeted(RecoveryMoves(s, step), max)
    ensures RecoveryMoves(s, step).row.state.Failed? && !s.row.state.Failed?
         ==> RecoveryMoves(s, step).row.tries == max + 1
  {
  }

  lemma RecoveryKeepsBudget(s: System, step: Step, max: nat)
    requires Budgeted(s, max) && IsRecovery(step)
    ensures Budgeted(RecoveryMoves(s, step), max)
    ensures RecoveryMoves(s, step).row.state.Failed? && !s.row.state.Failed?
         ==> RecoveryMoves(s, step).row.tries == max + 1
  {
    if step.RecoverQueued? {
      RecoverQueuedKeepsBudget(s, step, max);
    }
  }

  lemma WorkerKeepsBudget(s: System, step: Step, max: nat)
    requires Budgeted(s, max) && IsWorkerStep(step)
    ensures Budgeted(WorkerMoves(s, step), max)
    ensures WorkerMoves(s, step).row.state.Failed? && !s.row.state.Failed?
         ==> WorkerMoves(s, step).row.tries == max + 1
  {
  }

  lemma StepKeepsBudget(s: System, step: Step, max: nat)
    requires Budgeted(s, max) && !IsOverride(step)
    ensures Budgeted(Next(s, step), max)
    ensures Next(s, step).row.state.Failed? && !s.row.state.Failed? && !step.GiveUpWaiting?
         ==> Next(s, step).row.tries == max + 1
  {
    if IsTickWrite(step) {
      if TickMay(s) { TickKeepsBudget(s, step, max); }
    } else if IsRecovery(step) {
      RecoveryKeepsBudget(s, step, max);
    } else if IsWorkerStep(step) {
      WorkerKeepsBudget(s, step, max);
    }
  }

  ghost predicate Untouched(steps: seq<Step>) {
    forall k :: 0 <= k < |steps| ==> !IsOverride(steps[k])
  }

  lemma {:induction false} RunKeepsBudget(s: System, steps: seq<Step>, max: nat)
    requires Budgeted(s, max) && Untouched(steps)
    ensures Budgeted(Run(s, steps), max)
    decreases |steps|
  {
    if |steps| > 0 {
      StepKeepsBudget(s, steps[0], max);
      RunKeepsBudget(Next(s, steps[0]), steps[1..], max);
    }
  }

  /** Without operator steps the try number stays in budget through crashes and both refunds. */
  lemma TriesStayInBudget(max: nat, steps: seq<Step>)
    requires Untouched(steps)
    ensures
      var row := Run(Start(max), steps).row;
      && (row.state.Queued? || row.state.Running? ==> 1 <= row.tries <= max + 1)
      && (row.state.UpForRetry? ==> 1 <= row.tries <= max)
  {
    RunKeepsBudget(Start(max), steps, max);
    RunKeepsInv(Start(max), steps);
  }

  /** A failed outcome ends the task only when every attempt is used up. */
  lemma FailsOnlyWhenSpent(max: nat, steps: seq<Step>, step: Step)
    requires Untouched(steps) && !IsOverride(step) && !step.GiveUpWaiting?
    requires !Run(Start(max), steps).row.state.Failed?
    ensures
      var after := Next(Run(Start(max), steps), step);
      after.row.state.Failed? ==> after.row.tries == max + 1
  {
    RunKeepsBudget(Start(max), steps, max);
    StepKeepsBudget(Run(Start(max), steps), step, max);
  }

  lemma {:induction false} RecordedStays(s: System, steps: seq<Step>)
    ensures s.recorded <= Run(s, steps).recorded
    decreases |steps|
  {
    if |steps| > 0 {
      RecordedStays(Next(s, steps[0]), steps[1..]);
    }
  }

  /**
   A reference whose outcome was recorded is never handed out again: no later
   dispatch assigns it and no goroutine that has yet to start a process holds it.
   */
  lemma RecordedIsNeverHandedOut(max: nat, before: seq<Step>, after: seq<Step>, m: nat, id: nat)
    requires m in Run(Start(max), before).recorded
    ensures
      var t := Run(Run(Start(max), before), after);
      id in t.workers && !t.workers[id].stage.Polling? ==> t.workers[id].ti.ref != Attempt(m)
    ensures
      var t := Run(Run(Start(max), before), after);
      id !in t.workers && id in Next(t, Dispatch(id)).workers
      ==> Next(t, Dispatch(id)).workers[id].ti.ref != Attempt(m)
  {
    var s := Run(Start(max), before);
    RunKeepsInv(Start(max), before);
    RunKeepsInv(s, after);
    RecordedStays(s, after);
  }
}
