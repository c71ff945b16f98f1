/**
 The executor's launch registry across crashes (internal/executor/runner.go Launch,
 wait, sweepFinishedLocked, Probe; internal/executor/state.go RecoverState,
 watchAdopted, saveState, removeState), with state persistence on. File writes are
 atomic and succeed; RecoverState ends before launches are served.
 */
module LaunchRegistry {

  type Ref = string

  datatype Option<T> = None | Some(value: T)

  const FINISHED_TASK_TTL := 3600

  /** Path separators become underscores. */
  function Flat(ref: Ref): string {
    if |ref| == 0 then ""
    else [if ref[0] == '/' || ref[0] == '\\' then '_' else ref[0]] + Flat(ref[1..])
  }

  function FileName(ref: Ref): string {
    Flat(ref) + ".json"
  }

  datatype Entry = Entry(finished: bool, at: int)

  /** The saved record of an attempt. */
  datatype Record = Record(ref: Ref, finished: bool)

  /** A Launch call that has reserved its reference and not returned. */
  datatype Launch = Launch(ref: Ref, started: bool)

  /** The goroutine waiting for a process, or watching an adopted one. */
  datatype Waiter = Waiter(ref: Ref, marked: bool)

  datatype Mode = Down | Recovering(todo: set<string>, saving: Option<Ref>) | Serving

  /**
   `name` gives a reference's state file, `exits` are the sidecar files, and `starts`
   counts the processes started for each reference. `kept` are the references of a
   Launch that started a process and returned, until evicted.
   */
  datatype System = System(
    name: Ref -> string,
    now: int,
    mode: Mode,
    tasks: map<Ref, Entry>,
    files: map<string, Record>,
    exits: set<string>,
    launching: map<nat, Launch>,
    waiters: map<nat, Waiter>,
    starts: multiset<Ref>,
    kept: set<Ref>)

  function Init(name: Ref -> string): System {
    System(name, 0, Serving, map[], map[], {}, map[], map[], multiset{}, {})
  }

  datatype Step =
    | Elapse(seconds: nat)
    | LaunchBegin(id: nat, ref: Ref)
    | LaunchFails(id: nat)
    | ProcessStarts(id: nat)
    | LaunchReturns(id: nat, waiter: nat)
    | ProcessExits(ref: Ref)
    | WaiterMarks(waiter: nat)
    | WaiterSaves(waiter: nat)
    | Crash
    | RecoverBegin
    | RecoverEntry(file: string, alive: bool, waiter: nat)
    | RecoverSave
    | RecoverEnd

  function Expired(tasks: map<Ref, Entry>, now: int): set<Ref> {
    set r | r in tasks && tasks[r].finished && now - tasks[r].at > FINISHED_TASK_TTL
  }

  function Names(name: Ref -> string, refs: set<Ref>): set<string> {
    set r | r in refs :: name(r)
  }

  function Sweep(s: System): System {
    var gone := Expired(s.tasks, s.now);
    s.(tasks := s.tasks - gone, files := s.files - Names(s.name, gone), exits := s.exits - Names(s.name, gone),
       kept := s.kept - gone)
  }

  /** The reservation under the lock. */
  function Reserve(s: System, id: nat, ref: Ref): System {
    if ref in s.tasks then s
    else s.(tasks := s.tasks[ref := Entry(false, 0)], launching := s.launching[id := Launch(ref, false)])
  }

  function Save(s: System, ref: Ref, finished: bool): System {
    s.(files := s.files[s.name(ref) := Record(ref, finished)])
  }

  function LaunchMoves(s: System, step: Step): System {
    match step
    case LaunchBegin(id, ref) =>
      if s.mode.Serving? && id !in s.launching && ref != "" then Reserve(Sweep(s), id, ref) else s
    case LaunchFails(id) =>
      if id in s.launching then
        s.(tasks := s.tasks - {s.launching[id].ref}, launching := s.launching - {id})
      else s
    case ProcessStarts(id) =>
      if id in s.launching && !s.launching[id].started then
        var ref := s.launching[id].ref;
        s.(launching := s.launching[id := Launch(ref, true)], starts := s.starts + multiset{ref})
      else s
    case LaunchReturns(id, waiter) =>
      if id in s.launching && s.launching[id].started && waiter !in s.waiters then
        var ref := s.launching[id].ref;
        Save(s, ref, false).(launching := s.launching - {id}, waiters := s.waiters[waiter := Waiter(ref, false)],
                             kept := s.kept + {ref})
      else s
    case _ => s
  }

  function WaiterMoves(s: System, step: Step): System {
    match step
    case WaiterMarks(w) =>
      if w in s.waiters && !s.waiters[w].marked then
        var ref := s.waiters[w].ref;
        s.(tasks := if ref in s.tasks then s.tasks[ref := Entry(true, s.now)] else s.tasks,
           waiters := s.waiters[w := Waiter(ref, true)])
      else s
    case WaiterSaves(w) =>
      if w in s.waiters && s.waiters[w].marked then
        Save(s, s.waiters[w].ref, true).(waiters := s.waiters - {w})
      else s
    case _ => s
  }

  /** One file of RecoverState's listing: `alive` is what the process table says. */
  function Adopt(s: System, file: string, alive: bool, waiter: nat): System
    requires s.mode.Recovering? && file in s.mode.todo
  {
    var t := s.(mode := Recovering(s.mode.todo - {file}, None));
    if file !in s.files || s.files[file].ref in s.tasks then t
    else
      var ref := s.files[file].ref;
      var u := t.(mode := t.mode.(saving := Some(ref)));
      if s.files[file].finished || s.name(ref) in s.exits || !alive then
        u.(tasks := s.tasks[ref := Entry(true, s.now)])
      else u.(tasks := s.tasks[ref := Entry(false, 0)], waiters := s.waiters[waiter := Waiter(ref, false)])
  }

  function RecoveryMoves(s: System, step: Step): System {
    match step
    case RecoverBegin => if s.mode.Down? then s.(mode := Recovering(s.files.Keys, None)) else s
    case RecoverEntry(file, alive, waiter) =>
      if s.mode.Recovering? && s.mode.saving.None? && file in s.mode.todo && waiter !in s.waiters then
        Adopt(s, file, alive, waiter)
      else s
    case RecoverSave =>
      if s.mode.Recovering? && s.mode.saving.Some? then
        var ref := s.mode.saving.value;
        Save(s, ref, ref in s.tasks && s.tasks[ref].finished).(mode := s.mode.(saving := None))
      else s
    case RecoverEnd => if s.mode == Recovering({}, None) then s.(mode := Serving) else s
    case _ => s
  }

  predicate IsLaunch(step: Step) {
    step.LaunchBegin? || step.LaunchFails? || step.ProcessStarts? || step.LaunchReturns?
  }

  function Next(s: System, step: Step): System {
    if IsLaunch(step) then LaunchMoves(s, step)
    else if step.WaiterMarks? || step.WaiterSaves? then WaiterMoves(s, step)
    else if step.Elapse? then s.(now := s.now + step.seconds)
    else if step.ProcessExits? then s.(exits := s.exits + {s.name(step.ref)})
    else if step.Crash? then s.(mode := Down, tasks := map[], launching := map[], waiters := map[])
    else RecoveryMoves(s, step)
  }

  function Run(s: System, steps: seq<Step>): System
    decreases |steps|
  {
    if |steps| == 0 then s else Run(Next(s, steps[0]), steps[1..])
  }

  datatype Phase = PhaseUnknown | PhaseRunning | PhaseExited

  function Probe(s: System, ref: Ref): Phase {
    if ref !in s.tasks then PhaseUnknown
    else if s.tasks[ref].finished then PhaseExited
    else PhaseRunning
  }

  // ----- what every run keeps, when state-file names are distinct -----

  predicate SameName(name: Ref -> string, a: Ref, b: Ref) {
    a != "" && b != "" && name(a) == name(b)
  }

  ghost predicate DistinctNames(name: Ref -> string, refs: set<Ref>) {
    forall a, b :: a in refs && b in refs && SameName(name, a, b) ==> a == b
  }

  predicate InPlay(refs: set<Ref>, r: Ref) {
    r in refs && r != ""
  }

  ghost predicate KnownTasks(tasks: map<Ref, Entry>, refs: set<Ref>) {
    forall r :: r in tasks ==> InPlay(refs, r)
  }

  ghost predicate KnownFiles(name: Ref -> string, files: map<string, Record>, refs: set<Ref>) {
    forall f :: f in files ==> InPlay(refs, files[f].ref) && name(files[f].ref) == f
  }

  ghost predicate KnownWaiters(waiters: map<nat, Waiter>, refs: set<Ref>) {
    forall w :: w in waiters ==> InPlay(refs, waiters[w].ref)
  }

  ghost predicate KnownKept(kept: set<Ref>, refs: set<Ref>) {
    forall r :: r in kept ==> InPlay(refs, r)
  }

  predicate KnownMode(mode: Mode, refs: set<Ref>) {
    mode.Recovering? && mode.saving.Some? ==> InPlay(refs, mode.saving.value)
  }

  predicate Unfinished(tasks: map<Ref, Entry>, r: Ref) {
    r in tasks && !tasks[r].finished
  }

  /** What is being launched is known, unfinished and not yet kept. */
  ghost predicate LaunchesOwned(tasks: map<Ref, Entry>, launching: map<nat, Launch>, kept: set<Ref>) {
    forall i :: i in launching ==> Unfinished(tasks, launching[i].ref) && launching[i].ref !in kept
  }

  ghost predicate WaitersOwned(tasks: map<Ref, Entry>, waiters: map<nat, Waiter>) {
    forall w :: w in waiters && !waiters[w].marked ==> Unfinished(tasks, waiters[w].ref)
  }

  ghost predicate OneLaunchEach(launching: map<nat, Launch>) {
    forall i, j :: i in launching && j in launching && i != j ==> launching[i].ref != launching[j].ref
  }

  ghost predicate OneWaiterEach(waiters: map<nat, Waiter>) {
    forall v, w :: v in waiters && w in waiters && v != w && !waiters[v].marked && !waiters[w].marked
                   ==> waiters[v].ref != waiters[w].ref
  }

  ghost predicate NeverBoth(launching: map<nat, Launch>, waiters: map<nat, Waiter>) {
    forall i, w :: i in launching && w in waiters && !waiters[w].marked ==> launching[i].ref != waiters[w].ref
  }

  predicate ModeFits(mode: Mode, tasks: map<Ref, Entry>, launching: map<nat, Launch>, waiters: map<nat, Waiter>) {
    && (!mode.Serving? ==> launching == map[])
    && (mode.Down? ==> waiters == map[] && tasks == map[])
  }

  predicate Remembered(name: Ref -> string, files: map<string, Record>, tasks: map<Ref, Entry>, mode: Mode, r: Ref) {
    && name(r) in files && files[name(r)].ref == r
    && (mode.Serving? ==> r in tasks)
    && (mode.Recovering? ==> r in tasks || name(r) in mode.todo)
  }

  ghost predicate AllRemembered(name: Ref -> string, files: map<string, Record>, tasks: map<Ref, Entry>, mode: Mode,
                                kept: set<Ref>) {
    forall r :: r in kept ==> Remembered(name, files, tasks, mode, r)
  }

  ghost predicate WellKnown(s: System, refs: set<Ref>) {
    && KnownTasks(s.tasks, refs) && KnownFiles(s.name, s.files, refs) && KnownWaiters(s.waiters, refs)
    && KnownKept(s.kept, refs) && KnownMode(s.mode, refs)
  }

  /** A reference has at most one process being launched or waited for, and then it is known and unfinished. */
  ghost predicate Owned(s: System) {
    && LaunchesOwned(s.tasks, s.launching, s.kept) && WaitersOwned(s.tasks, s.waiters)
    && OneLaunchEach(s.launching) && OneWaiterEach(s.waiters) && NeverBoth(s.launching, s.waiters)
    && ModeFits(s.mode, s.tasks, s.launching, s.waiters)
  }

  ghost predicate Inv(s: System, refs: set<Ref>) {
    WellKnown(s, refs) && Owned(s) && AllRemembered(s.name, s.files, s.tasks, s.mode, s.kept)
  }

  predicate Mentions(step: Step, refs: set<Ref>) {
    step.LaunchBegin? ==> step.ref in refs
  }

  lemma SweepKeepsInv(s: System, refs: set<Ref>)
    requires Inv(s, refs) && DistinctNames(s.name, refs) && s.mode.Serving?
    ensures Inv(Sweep(s), refs)
  {
    var gone := Expired(s.tasks, s.now);
    forall r | r in s.kept - gone
      ensures s.name(r) !in Names(s.name, gone)
    {
      if s.name(r) in Names(s.name, gone) {
        var q :| q in gone && s.name(q) == s.name(r);
        assert SameName(s.name, q, r);
      }
    }
  }

  lemma ReserveKeepsInv(s: System, id: nat, ref: Ref, refs: set<Ref>)
    requires Inv(s, refs) && s.mode.Serving? && id !in s.launching && InPlay(refs, ref)
    ensures Inv(Reserve(s, id, ref), refs)
  {
  }

  lemma SaveKeepsInv(s: System, ref: Ref, finished: bool, refs: set<Ref>)
    requires Inv(s, refs) && DistinctNames(s.name, refs) && InPlay(refs, ref)
    ensures Inv(Save(s, ref, finished), refs)
  {
    var t := Save(s, ref, finished);
    forall r | r in s.kept
      ensures Remembered(s.name, t.files, s.tasks, s.mode, r)
    {
      assert SameName(s.name, r, ref) ==> r == ref;
    }
  }

  lemma ReturnKeepsInv(s: System, id: nat, waiter: nat, refs: set<Ref>)
    requires Inv(s, refs) && DistinctNames(s.name, refs)
    ensures Inv(LaunchMoves(s, LaunchReturns(id, waiter)), refs)
  {
    if id in s.launching {
      SaveKeepsInv(s, s.launching[id].ref, false, refs);
    }
  }

  lemma LaunchKeepsInv(s: System, step: Step, refs: set<Ref>)
    requires Inv(s, refs) && DistinctNames(s.name, refs) && IsLaunch(step) && Mentions(step, refs)
    ensures Inv(LaunchMoves(s, step), refs)
  {
    match step
    case LaunchBegin(id, ref) =>
      if s.mode.Serving? && id !in s.launching && ref != "" {
        SweepKeepsInv(s, refs);
        ReserveKeepsInv(Sweep(s), id, ref, refs);
      }
    case LaunchFails(_) =>
    case ProcessStarts(_) =>
    case LaunchReturns(id, waiter) => ReturnKeepsInv(s, id, waiter, refs);
  }

  lemma WaiterKeepsInv(s: System, step: Step, refs: set<Ref>)
    requires Inv(s, refs) && DistinctNames(s.name, refs) && (step.WaiterMarks? || step.WaiterSaves?)
    ensures Inv(WaiterMoves(s, step), refs)
  {
    if step.WaiterSaves? && step.waiter in s.waiters {
      SaveKeepsInv(s, s.waiters[step.waiter].ref, true, refs);
    }
  }

  lemma AdoptKeepsInv(s: System, file: string, alive: bool, waiter: nat, refs: set<Ref>)
    requires Inv(s, refs) && DistinctNames(s.name, refs) && waiter !in s.waiters
    requires s.mode.Recovering? && file in s.mode.todo
    ensures Inv(Adopt(s, file, alive, waiter), refs)
  {
    var t := Adopt(s, file, alive, waiter);
    AdoptRemembers(s, file, alive, waiter, refs);
    if file in s.files && s.files[file].ref !in s.tasks {
      assert t.tasks.Keys == s.tasks.Keys + {s.files[file].ref};
    }
  }

  lemma AdoptRemembers(s: System, file: string, alive: bool, waiter: nat, refs: set<Ref>)
    requires Inv(s, refs) && s.mode.Recovering? && file in s.mode.todo
    ensures var t := Adopt(s, file, alive, waiter);
      AllRemembered(s.name, s.files, t.tasks, t.mode, s.kept)
  {
    forall r | r in s.kept
      ensures var t := Adopt(s, file, alive, waiter);
        Remembered(s.name, s.files, t.tasks, t.mode, r)
    {
      assert Remembered(s.name, s.files, s.tasks, s.mode, r);
    }
  }

  lemma RecoverySaveKeepsInv(s: System, refs: set<Ref>)
    requires Inv(s, refs) && DistinctNames(s.name, refs)
    ensures Inv(RecoveryMoves(s, RecoverSave), refs)
  {
    if s.mode.Recovering? && s.mode.saving.Some? {
      var ref := s.mode.saving.value;
      SaveKeepsInv(s, ref, ref in s.tasks && s.tasks[ref].finished, refs);
    }
  }

  lemma RecoveryKeepsInv(s: System, step: Step, refs: set<Ref>)
    requires Inv(s, refs) && DistinctNames(s.name, refs)
    ensures Inv(RecoveryMoves(s, step), refs)
  {
    match step
    case RecoverEntry(file, alive, waiter) =>
      if s.mode.Recovering? && file in s.mode.todo && waiter !in s.waiters {
        AdoptKeepsInv(s, file, alive, waiter, refs);
      }
    case RecoverSave => RecoverySaveKeepsInv(s, refs);
    case _ =>
  }

  lemma CrashKeepsInv(s: System, refs: set<Ref>)
    requires Inv(s, refs)
    ensures Inv(Next(s, Crash), refs)
  {
  }

  lemma StepKeepsInv(s: System, step: Step, refs: set<Ref>)
    requires Inv(s, refs) && DistinctNames(s.name, refs) && Mentions(step, refs)
    ensures Inv(Next(s, step), refs) && Next(s, step).name == s.name
  {
    if IsLaunch(step) {
      LaunchKeepsInv(s, step, refs);
    } else if step.WaiterMarks? || step.WaiterSaves? {
      WaiterKeepsInv(s, step, refs);
    } else if step.Crash? {
      CrashKeepsInv(s, refs);
    } else if !step.Elapse? && !step.ProcessExits? {
      RecoveryKeepsInv(s, step, refs);
    }
  }

  /** The next launch's sweep evicts the finished result of `r`, whose time-to-live is over. */
  predicate Evicts(s: System, step: Step, r: Ref) {
    step.LaunchBegin? && s.mode.Serving? && r in Expired(s.tasks, s.now)
  }

  lemma StepStartsNoSecond(s: System, step: Step, r: Ref, refs: set<Ref>)
    requires Inv(s, refs) && r in s.kept && !Evicts(s, step, r)
    ensures r in Next(s, step).kept && Next(s, step).starts[r] == s.starts[r]
  {
  }

  predicate Allowed(steps: seq<Step>, refs: set<Ref>)
    decreases |steps|
  {
    |steps| > 0 ==> Mentions(steps[0], refs) && Allowed(steps[1..], refs)
  }

  predicate Spared(s: System, steps: seq<Step>, r: Ref)
    decreases |steps|
  {
    |steps| > 0 ==> !Evicts(s, steps[0], r) && Spared(Next(s, steps[0]), steps[1..], r)
  }

  lemma {:induction false} RunKeepsInv(s: System, steps: seq<Step>, refs: set<Ref>)
    requires Inv(s, refs) && DistinctNames(s.name, refs) && Allowed(steps, refs)
    ensures Inv(Run(s, steps), refs) && Run(s, steps).name == s.name
    decreases |steps|
  {
    if |steps| > 0 {
      StepKeepsInv(s, steps[0], refs);
      RunKeepsInv(Next(s, steps[0]), steps[1..], refs);
    }
  }

  lemma {:induction false} RunStartsNoSecond(s: System, steps: seq<Step>, r: Ref, refs: set<Ref>)
    requires Inv(s, refs) && DistinctNames(s.name, refs) && Allowed(steps, refs) && r in s.kept && Spared(s, steps, r)
    ensures r in Run(s, steps).kept && Run(s, steps).starts[r] == s.starts[r]
    decreases |steps|
  {
    if |steps| > 0 {
      StepKeepsInv(s, steps[0], refs);
      StepStartsNoSecond(s, steps[0], r, refs);
      RunStartsNoSecond(Next(s, steps[0]), steps[1..], r, refs);
    }
  }

  // ----- how long a result is kept, by the steps alone -----

  function Seconds(step: Step): nat {
    if step.Elapse? then step.seconds else 0
  }

  /** Seconds since the reference was last seen not exited, one step later. */
  function IdleAfter(s: System, step: Step, r: Ref, idle: nat): nat {
    if Probe(Next(s, step), r) != PhaseExited then 0 else idle + Seconds(step)
  }

  /** At no point of the run has it been exited for more than an hour. */
  predicate WithinHour(s: System, steps: seq<Step>, r: Ref, idle: nat)
    decreases |steps|
  {
    |steps| > 0 ==>
      && IdleAfter(s, steps[0], r, idle) <= 3600
      && WithinHour(Next(s, steps[0]), steps[1..], r, IdleAfter(s, steps[0], r, idle))
  }

  /** A finished entry was stamped when its process was found gone. */
  predicate Stamped(s: System, r: Ref, idle: nat) {
    r in s.tasks && s.tasks[r].finished ==> s.now - idle <= s.tasks[r].at
  }

  lemma StepKeepsStamp(s: System, step: Step, r: Ref, idle: nat)
    requires Stamped(s, r, idle)
    ensures Stamped(Next(s, step), r, IdleAfter(s, step, r, idle))
  {
  }

  lemma {:induction false} WithinHourIsSpared(s: System, steps: seq<Step>, r: Ref, idle: nat)
    requires Stamped(s, r, idle) && idle <= 3600 && WithinHour(s, steps, r, idle)
    ensures Spared(s, steps, r)
    decreases |steps|
  {
    if |steps| > 0 {
      StepKeepsStamp(s, steps[0], r, idle);
      WithinHourIsSpared(Next(s, steps[0]), steps[1..], r, IdleAfter(s, steps[0], r, idle));
    }
  }

  /**
   Once a Launch has started a reference's process and returned, no later Launch
   starts another, across any number of crashes each followed by RecoverState, until
   its process has been known to be gone for more than an hour; and until then it never
   probes unknown while launches are served.
   */
  lemma NoSecondStart(name: Ref -> string, refs: set<Ref>, before: seq<Step>, after: seq<Step>, r: Ref)
    requires DistinctNames(name, refs) && Allowed(before, refs) && Allowed(after, refs)
    requires r in Run(Init(name), before).kept && Probe(Run(Init(name), before), r) != PhaseExited
    requires WithinHour(Run(Init(name), before), after, r, 0)
    ensures var t := Run(Run(Init(name), before), after);
      && t.starts[r] == Run(Init(name), before).starts[r]
      && (t.mode.Serving? ==> Probe(t, r) != PhaseUnknown)
  {
    var s := Run(Init(name), before);
    InitIsInv(name, refs);
    RunKeepsInv(Init(name), before, refs);
    WithinHourIsSpared(s, after, r, 0);
    RunKeepsInv(s, after, refs);
    RunStartsNoSecond(s, after, r, refs);
    if Run(s, after).mode.Serving? {
      KeptIsKnown(Run(s, after), r, refs);
    }
  }

  /** No stamp lies in the future. */
  ghost predicate PastStamps(s: System) {
    forall r :: r in s.tasks && s.tasks[r].finished ==> s.tasks[r].at <= s.now
  }

  lemma StepKeepsPastStamps(s: System, step: Step)
    requires PastStamps(s)
    ensures PastStamps(Next(s, step))
  {
  }

  lemma {:induction false} RunKeepsPastStamps(s: System, steps: seq<Step>)
    requires PastStamps(s)
    ensures PastStamps(Run(s, steps))
    decreases |steps|
  {
    if |steps| > 0 {
      StepKeepsPastStamps(s, steps[0]);
      RunKeepsPastStamps(Next(s, steps[0]), steps[1..]);
    }
  }

  /** But an hour and a second after its end was noticed, a result is dropped by the next launch of anything. */
  lemma OldResultIsDropped(name: Ref -> string, before: seq<Step>, id: nat, q: Ref, r: Ref)
    requires var s := Run(Init(name), before);
      s.mode.Serving? && id !in s.launching && q != "" && Probe(s, r) == PhaseExited
    ensures var t := Run(Run(Init(name), before), [Elapse(3601), LaunchBegin(id, q)]);
      && Probe(t, r) == (if q == r then PhaseRunning else PhaseUnknown)
      && (q == r ==> id in t.launching && t.launching[id] == Launch(r, false))
      && name(r) !in t.files && name(r) !in t.exits
  {
    var s := Run(Init(name), before);
    RunKeepsPastStamps(Init(name), before);
    NameStays(Init(name), before);
    assert r in Expired(s.tasks, s.now + 3601);
    RunOne(Next(s, Elapse(3601)), LaunchBegin(id, q));
    assert [Elapse(3601), LaunchBegin(id, q)][1..] == [LaunchBegin(id, q)];
  }

  lemma {:induction false} NameStays(s: System, steps: seq<Step>)
    ensures Run(s, steps).name == s.name
    decreases |steps|
  {
    if |steps| > 0 {
      NameStays(Next(s, steps[0]), steps[1..]);
    }
  }

  /** A process that ends is seen as exited once its waiter has marked it, and is on record once it has saved that. */
  lemma EndIsRecorded(s: System, w: nat, refs: set<Ref>)
    requires Inv(s, refs) && w in s.waiters && !s.waiters[w].marked
    ensures
      var r, marked := s.waiters[w].ref, Next(s, WaiterMarks(w));
      var saved := Next(marked, WaiterSaves(w));
      && Probe(s, r) == PhaseRunning && Probe(marked, r) == PhaseExited && Probe(saved, r) == PhaseExited
      && s.name(r) in saved.files && saved.files[s.name(r)] == Record(r, true)
      && saved.waiters == s.waiters - {w}
  {
    assert Unfinished(s.tasks, s.waiters[w].ref);
  }

  /** A launch that fails leaves its reference unknown, so that it can be launched again. */
  lemma FailedLaunchIsForgotten(s: System, id: nat)
    requires id in s.launching
    ensures Probe(Next(s, LaunchFails(id)), s.launching[id].ref) == PhaseUnknown
  {
  }

  // ----- a saved result survives crashes -----

  /** The end of the process is on record, and nothing says otherwise. */
  predicate Concluded(s: System, r: Ref) {
    && r in s.kept && s.name(r) in s.files && s.files[s.name(r)] == Record(r, true)
    && (r in s.tasks ==> s.tasks[r].finished)
    && (s.mode.Recovering? && s.mode.saving == Some(r) ==> r in s.tasks)
  }

  lemma SweepKeepsConcluded(s: System, r: Ref, refs: set<Ref>)
    requires Inv(s, refs) && DistinctNames(s.name, refs)
    requires Concluded(s, r) && s.mode.Serving? && r !in Expired(s.tasks, s.now)
    ensures Concluded(Sweep(s), r)
  {
    assert InPlay(refs, r);
    forall q | q in Expired(s.tasks, s.now)
      ensures s.name(q) != s.name(r)
    {
      assert InPlay(refs, q);
      assert SameName(s.name, q, r) ==> q == r;
    }
  }

  lemma LaunchKeepsConcluded(s: System, step: Step, r: Ref, refs: set<Ref>)
    requires Inv(s, refs) && DistinctNames(s.name, refs) && Mentions(step, refs) && IsLaunch(step)
    requires Concluded(s, r) && !Evicts(s, step, r)
    ensures Concluded(LaunchMoves(s, step), r)
  {
    assert InPlay(refs, r);
    match step
    case LaunchBegin(_, _) =>
      if s.mode.Serving? { SweepKeepsConcluded(s, r, refs); }
    case LaunchReturns(id, _) =>
      if id in s.launching {
        var q := s.launching[id].ref;
        assert InPlay(refs, q) && q != r;
        assert SameName(s.name, q, r) ==> q == r;
      }
    case _ =>
  }

  lemma WaiterKeepsConcluded(s: System, step: Step, r: Ref, refs: set<Ref>)
    requires Inv(s, refs) && DistinctNames(s.name, refs) && (step.WaiterMarks? || step.WaiterSaves?)
    requires Concluded(s, r)
    ensures Concluded(WaiterMoves(s, step), r)
  {
    assert InPlay(refs, r);
    if step.waiter in s.waiters {
      var q := s.waiters[step.waiter].ref;
      assert InPlay(refs, q);
      assert SameName(s.name, q, r) ==> q == r;
    }
  }

  lemma RecoveryKeepsConcluded(s: System, step: Step, r: Ref, refs: set<Ref>)
    requires Inv(s, refs) && DistinctNames(s.name, refs) && Concluded(s, r)
    ensures Concluded(RecoveryMoves(s, step), r)
  {
    assert InPlay(refs, r);
    if step.RecoverSave? && s.mode.Recovering? && s.mode.saving.Some? {
      var q := s.mode.saving.value;
      assert InPlay(refs, q);
      assert SameName(s.name, q, r) ==> q == r;
    } else if step.RecoverEntry? && step.file in s.files {
      var q := s.files[step.file].ref;
      assert InPlay(refs, q) && s.name(q) == step.file;
    }
  }

  lemma {:induction false} RunKeepsConcluded(s: System, steps: seq<Step>, r: Ref, refs: set<Ref>)
    requires Inv(s, refs) && DistinctNames(s.name, refs) && Allowed(steps, refs)
    requires Concluded(s, r) && Spared(s, steps, r)
    ensures Concluded(Run(s, steps), r)
    decreases |steps|
  {
    if |steps| > 0 {
      var step := steps[0];
      if IsLaunch(step) {
        LaunchKeepsConcluded(s, step, r, refs);
      } else if step.WaiterMarks? || step.WaiterSaves? {
        WaiterKeepsConcluded(s, step, r, refs);
      } else if !step.Elapse? && !step.ProcessExits? && !step.Crash? {
        RecoveryKeepsConcluded(s, step, r, refs);
      }
      StepKeepsInv(s, step, refs);
      RunKeepsConcluded(Next(s, step), steps[1..], r, refs);
    }
  }

  lemma {:induction false} SparedLater(s: System, front: seq<Step>, last: seq<Step>, r: Ref)
    requires Spared(s, front + last, r)
    ensures Spared(s, front, r) && Spared(Run(s, front), last, r)
    decreases |front|
  {
    if |front| == 0 {
      assert front + last == last;
    } else {
      assert (front + last)[1..] == front[1..] + last;
      SparedLater(Next(s, front[0]), front[1..], last, r);
    }
  }

  lemma {:induction false} AllowedLater(front: seq<Step>, last: seq<Step>, refs: set<Ref>)
    requires Allowed(front + last, refs)
    ensures Allowed(front, refs) && Allowed(last, refs)
    decreases |front|
  {
    if |front| == 0 {
      assert front + last == last;
    } else {
      assert (front + last)[1..] == front[1..] + last;
      AllowedLater(front[1..], last, refs);
    }
  }

  /**
   Once a finished result is on record while launches are served, every later probe that is
   served says exited for the rest of its hour, however often the executor crashes.
   */
  lemma SavedResultSurvives(name: Ref -> string, refs: set<Ref>, before: seq<Step>, ending: seq<Step>, later: seq<Step>,
                            r: Ref)
    requires DistinctNames(name, refs) && Allowed(before, refs) && Allowed(ending + later, refs)
    requires r in Run(Init(name), before).kept && Probe(Run(Init(name), before), r) != PhaseExited
    requires WithinHour(Run(Init(name), before), ending + later, r, 0)
    requires var u := Run(Run(Init(name), before), ending);
      u.mode.Serving? && Probe(u, r) == PhaseExited && name(r) in u.files && u.files[name(r)] == Record(r, true)
    ensures var t := Run(Run(Init(name), before), ending + later);
      t.mode.Serving? ==> Probe(t, r) == PhaseExited
  {
    var s := Run(Init(name), before);
    InitIsInv(name, refs);
    RunKeepsInv(Init(name), before, refs);
    WithinHourIsSpared(s, ending + later, r, 0);
    AllowedLater(ending, later, refs);
    SparedLater(s, ending, later, r);
    RunKeepsInv(s, ending, refs);
    RunStartsNoSecond(s, ending, r, refs);
    RunAppend(s, ending, later);
    ConcludedIsExited(Run(s, ending), later, r, refs);
  }

  lemma ConcludedIsExited(u: System, later: seq<Step>, r: Ref, refs: set<Ref>)
    requires Inv(u, refs) && DistinctNames(u.name, refs) && Allowed(later, refs) && Concluded(u, r) && Spared(u, later, r)
    ensures Run(u, later).mode.Serving? ==> Probe(Run(u, later), r) == PhaseExited
  {
    RunKeepsConcluded(u, later, r, refs);
    RunKeepsInv(u, later, refs);
    if Run(u, later).mode.Serving? {
      KeptIsKnown(Run(u, later), r, refs);
    }
  }

  lemma InitIsInv(name: Ref -> string, refs: set<Ref>)
    ensures Inv(Init(name), refs)
  {
  }

  lemma KeptIsKnown(s: System, r: Ref, refs: set<Ref>)
    requires Inv(s, refs) && r in s.kept && s.mode.Serving?
    ensures Probe(s, r) != PhaseUnknown
  {
    assert Remembered(s.name, s.files, s.tasks, s.mode, r);
  }

  // ----- without distinct names -----

  ghost predicate SafeRun(name: Ref -> string, refs: set<Ref>, before: seq<Step>, after: seq<Step>, r: Ref) {
    var s := Run(Init(name), before);
    Allowed(before, refs) && Allowed(after, refs) && r in s.kept && Probe(s, r) != PhaseExited && WithinHour(s, after, r, 0)
    ==> Run(s, after).starts[r] == s.starts[r]
  }

  ghost predicate Safe(name: Ref -> string, refs: set<Ref>) {
    forall before, after, r {:trigger SafeRun(name, refs, before, after, r)} :: SafeRun(name, refs, before, after, r)
  }

  lemma RunOne(s: System, a: Step)
    ensures Run(s, [a]) == Next(s, a)
  {
    assert [a][1..] == [];
    assert Run(Next(s, a), []) == Next(s, a);
  }

  lemma RunThree(s: System, a: Step, b: Step, c: Step)
    ensures Run(s, [a, b, c]) == Next(Next(Next(s, a), b), c)
  {
    RunOne(Next(Next(s, a), b), c);
    assert [a, b, c][1..] == [b, c] && [b, c][1..] == [c];
    assert Run(Next(s, a), [b, c]) == Run(Next(Next(s, a), b), [c]);
  }

  lemma {:induction false} RunAppend(s: System, front: seq<Step>, last: seq<Step>)
    ensures Run(s, front + last) == Run(Run(s, front), last)
    decreases |front|
  {
    if |front| == 0 {
      assert front + last == last;
    } else {
      assert (front + last)[1..] == front[1..] + last;
      RunAppend(Next(s, front[0]), front[1..], last);
    }
  }

  /** Nothing can be old enough to evict. */
  ghost predicate Young(s: System) {
    s.now == 0 && forall r :: r in s.tasks ==> s.tasks[r].at >= 0
  }

  lemma YoungSweep(s: System)
    requires Young(s)
    ensures Sweep(s) == s
  {
    assert Expired(s.tasks, s.now) == {};
    assert Names(s.name, {}) == {};
    assert s.tasks - {} == s.tasks && s.files - {} == s.files;
  }

  ghost predicate Timeless(steps: seq<Step>) {
    forall k :: 0 <= k < |steps| ==> !steps[k].Elapse?
  }

  lemma {:induction false} TimelessIsWithinHour(s: System, steps: seq<Step>, r: Ref)
    requires Timeless(steps)
    ensures WithinHour(s, steps, r, 0)
    decreases |steps|
  {
    if |steps| > 0 {
      TimelessIsWithinHour(Next(s, steps[0]), steps[1..], r);
    }
  }

  const LIVE := Entry(false, 0)

  function Launching(id: nat, ref: Ref, waiter: nat): seq<Step> {
    [LaunchBegin(id, ref), ProcessStarts(id), LaunchReturns(id, waiter)]
  }

  function OneLaunched(name: Ref -> string, a: Ref): System {
    System(name, 0, Serving, map[a := LIVE], map[name(a) := Record(a, false)], {}, map[],
           map[0 := Waiter(a, false)], multiset{a}, {a})
  }

  function BothLaunched(name: Ref -> string, a: Ref, b: Ref): System {
    System(name, 0, Serving, map[a := LIVE, b := LIVE], map[name(a) := Record(b, false)], {}, map[],
           map[0 := Waiter(a, false), 1 := Waiter(b, false)], multiset{a, b}, {a, b})
  }

  function OneAdopted(name: Ref -> string, a: Ref, b: Ref): System {
    System(name, 0, Recovering({}, Some(b)), map[b := LIVE], map[name(a) := Record(b, false)], {}, map[],
           map[0 := Waiter(b, false)], multiset{a, b}, {a, b})
  }

  function ReservedAgain(name: Ref -> string, a: Ref, b: Ref): System {
    OneAdopted(name, a, b).(mode := Serving, tasks := map[b := LIVE, a := LIVE],
                            launching := map[0 := Launch(a, false)])
  }

  /** A whole launch with nothing to sweep. */
  lemma LaunchWhole(s: System, id: nat, ref: Ref, waiter: nat)
    requires Young(s) && s.mode.Serving? && s.launching == map[] && ref != "" && ref !in s.tasks && waiter !in s.waiters
    ensures Run(s, Launching(id, ref, waiter)) ==
      s.(tasks := s.tasks[ref := LIVE], files := s.files[s.name(ref) := Record(ref, false)],
         waiters := s.waiters[waiter := Waiter(ref, false)], starts := s.starts + multiset{ref}, kept := s.kept + {ref})
  {
    RunThree(s, LaunchBegin(id, ref), ProcessStarts(id), LaunchReturns(id, waiter));
    YoungSweep(s);
    var started := Next(Next(s, LaunchBegin(id, ref)), ProcessStarts(id));
    assert started.launching - {id} == map[];
  }

  lemma LaunchFirst(name: Ref -> string, a: Ref)
    requires a != ""
    ensures Run(Init(name), Launching(0, a, 0)) == OneLaunched(name, a)
  {
    LaunchWhole(Init(name), 0, a, 0);
    assert multiset{} + multiset{a} == multiset{a} && {} + {a} == {a};
  }

  lemma LaunchSecond(name: Ref -> string, a: Ref, b: Ref)
    requires SameName(name, a, b) && a != b
    ensures Run(OneLaunched(name, a), Launching(1, b, 1)) == BothLaunched(name, a, b)
  {
    LaunchWhole(OneLaunched(name, a), 1, b, 1);
    assert multiset{a} + multiset{b} == multiset{a, b} && {a} + {b} == {a, b};
  }

  lemma CrashAndAdoptOne(name: Ref -> string, a: Ref, b: Ref)
    requires SameName(name, a, b) && a != b
    ensures Run(BothLaunched(name, a, b), [Crash, RecoverBegin, RecoverEntry(name(a), true, 0)])
         == OneAdopted(name, a, b)
  {
    RunThree(BothLaunched(name, a, b), Crash, RecoverBegin, RecoverEntry(name(a), true, 0));
    var listed := Next(Next(BothLaunched(name, a, b), Crash), RecoverBegin);
    assert listed.mode == Recovering({name(a)}, None);
    assert {name(a)} - {name(a)} == {};
  }

  lemma ServedAgain(name: Ref -> string, a: Ref, b: Ref)
    requires SameName(name, a, b) && a != b
    ensures Next(Next(OneAdopted(name, a, b), RecoverSave), RecoverEnd) == OneAdopted(name, a, b).(mode := Serving)
  {
    assert map[name(a) := Record(b, false)][name(b) := Record(b, false)] == map[name(a) := Record(b, false)];
  }

  lemma LaunchAgain(name: Ref -> string, a: Ref, b: Ref)
    requires SameName(name, a, b) && a != b
    ensures Run(OneAdopted(name, a, b), [RecoverSave, RecoverEnd, LaunchBegin(0, a)]) == ReservedAgain(name, a, b)
  {
    RunThree(OneAdopted(name, a, b), RecoverSave, RecoverEnd, LaunchBegin(0, a));
    ServedAgain(name, a, b);
    YoungSweep(OneAdopted(name, a, b).(mode := Serving));
  }

  function Crashing(file: string): seq<Step> {
    [Crash, RecoverBegin, RecoverEntry(file, true, 0)]
  }

  function LaunchingAgain(a: Ref): seq<Step> {
    [RecoverSave, RecoverEnd, LaunchBegin(0, a)]
  }

  /** The run in which a reference whose record was overwritten is started twice. */
  function Colliding(file: string, a: Ref, b: Ref): seq<Step> {
    Launching(1, b, 1) + Crashing(file) + LaunchingAgain(a) + [ProcessStarts(0)]
  }

  lemma CollidingIsOrdinary(file: string, a: Ref, b: Ref)
    ensures Timeless(Colliding(file, a, b)) && Allowed(Colliding(file, a, b), {a, b})
  {
    AllowedPieces(Colliding(file, a, b), {a, b});
  }

  lemma CollisionStartsTwice(name: Ref -> string, a: Ref, b: Ref)
    requires SameName(name, a, b) && a != b
    ensures Run(Init(name), Launching(0, a, 0)) == OneLaunched(name, a)
    ensures Run(OneLaunched(name, a), Colliding(name(a), a, b)).starts[a] == 2
  {
    LaunchFirst(name, a);
    LaunchSecond(name, a, b);
    CrashAndAdoptOne(name, a, b);
    LaunchAgain(name, a, b);
    var s := OneLaunched(name, a);
    RunAppend(s, Launching(1, b, 1), Crashing(name(a)));
    RunAppend(s, Launching(1, b, 1) + Crashing(name(a)), LaunchingAgain(a));
    RunAppend(s, Launching(1, b, 1) + Crashing(name(a)) + LaunchingAgain(a), [ProcessStarts(0)]);
    RunOne(ReservedAgain(name, a, b), ProcessStarts(0));
  }

  lemma {:induction false} AllowedPieces(steps: seq<Step>, refs: set<Ref>)
    requires forall k :: 0 <= k < |steps| ==> Mentions(steps[k], refs)
    ensures Allowed(steps, refs)
    decreases |steps|
  {
    if |steps| > 0 {
      AllowedPieces(steps[1..], refs);
    }
  }

  lemma {:induction false} AllowedMore(steps: seq<Step>, some: set<Ref>, refs: set<Ref>)
    requires Allowed(steps, some) && some <= refs
    ensures Allowed(steps, refs)
    decreases |steps|
  {
    if |steps| > 0 {
      AllowedMore(steps[1..], some, refs);
    }
  }

  /** The registry never starts a kept reference twice exactly when no two references share a state file. */
  lemma SafeIffNamesDistinct(name: Ref -> string, refs: set<Ref>)
    ensures Safe(name, refs) <==> DistinctNames(name, refs)
  {
    if DistinctNames(name, refs) {
      forall before, after, r
        ensures SafeRun(name, refs, before, after, r)
      {
        var s := Run(Init(name), before);
        if Allowed(before, refs) && Allowed(after, refs) && r in s.kept && Probe(s, r) != PhaseExited
           && WithinHour(s, after, r, 0) {
          NoSecondStart(name, refs, before, after, r);
        }
      }
    } else {
      var a, b :| a in refs && b in refs && SameName(name, a, b) && a != b;
      var before := Launching(0, a, 0);
      var after := Colliding(name(a), a, b);
      CollisionStartsTwice(name, a, b);
      CollidingIsOrdinary(name(a), a, b);
      AllowedPieces(before, refs);
      AllowedMore(after, {a, b}, refs);
      TimelessIsWithinHour(OneLaunched(name, a), after, a);
      assert OneLaunched(name, a).starts[a] == 1;
      assert !SafeRun(name, refs, before, after, a);
    }
  }

  lemma {:induction false} FlatAppend(a: Ref, b: Ref)
    ensures Flat(a + b) == Flat(a) + Flat(b)
    decreases |a|
  {
    if a == "" {
      assert a + b == b;
    } else {
      assert (a + b)[1..] == a[1..] + b;
      FlatAppend(a[1..], b);
    }
  }

  /** Run `a` with a task `b_c`, and run `a_b` with a task `c`. */
  function TaskOf(a: string, b: string, c: string): Ref {
    a + ("/" + (b + ("_" + c)))
  }

  function RunOf(a: string, b: string, c: string): Ref {
    a + ("_" + (b + ("/" + c)))
  }

  /** Moving the boundary between run and task over an underscore changes the reference but not its state file. */
  lemma BoundaryDoesNotShow(a: string, b: string, c: string)
    ensures SameName(FileName, TaskOf(a, b, c), RunOf(a, b, c)) && TaskOf(a, b, c) != RunOf(a, b, c)
  {
    assert Flat("/") == Flat("_") == "_";
    FlatAppend("/", b + ("_" + c));
    FlatAppend("_", b + ("/" + c));
    FlatAppend(b, "_" + c);
    FlatAppend(b, "/" + c);
    FlatAppend("_", c);
    FlatAppend("/", c);
    FlatAppend(a, "/" + (b + ("_" + c)));
    FlatAppend(a, "_" + (b + ("/" + c)));
    assert TaskOf(a, b, c)[|a|] == '/' && RunOf(a, b, c)[|a|] == '_';
  }

  /**
   References the scheduler issues can collide: the first try of a task of a scheduled run,
   and that of a manual run of a DAG whose id extends the scheduled run's.
   */
  lemma FileNamesCanCollide()
    ensures var scheduled := TaskOf("p__20260101T000000Z", "q__manual_5", "r/1");
      var manual := RunOf("p__20260101T000000Z", "q__manual_5", "r/1");
      SameName(FileName, scheduled, manual) && scheduled != manual
  {
    BoundaryDoesNotShow("p__20260101T000000Z", "q__manual_5", "r/1");
  }
}
