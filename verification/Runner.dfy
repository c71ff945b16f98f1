/**
 The executor's runner (internal/executor/runner.go, internal/executor/state.go):
 each critical section under its mutex, and the recovery loop, proved to take the
 steps of LaunchRegistry they stand for.
 */
module Runner {
  import opened LaunchRegistry

  lemma RunSnoc(s: System, steps: seq<Step>, a: Step)
    ensures Run(s, steps + [a]) == Next(Run(s, steps), a)
  {
    RunAppend(s, steps, [a]);
    RunOne(Run(s, steps), a);
  }

  class Registry {
    const name: Ref -> string
    var now: int
    var tasks: map<Ref, Entry>
    var files: map<string, Record>
    var exits: set<string>
    var launching: map<nat, Launch>
    var waiters: map<nat, Waiter>
    ghost var mode: Mode
    ghost var starts: multiset<Ref>
    ghost var kept: set<Ref>

    ghost function State(): System
      reads this
    {
      System(name, now, mode, tasks, files, exits, launching, waiters, starts, kept)
    }

    constructor (s: System)
      ensures State() == s && name == s.name
    {
      name, now, tasks, files, exits := s.name, s.now, s.tasks, s.files, s.exits;
      launching, waiters, mode, starts, kept := s.launching, s.waiters, s.mode, s.starts, s.kept;
    }

    method SaveState(ref: Ref, finished: bool)
      modifies this`files
      ensures State() == Save(old(State()), ref, finished)
    {
      files := files[name(ref) := Record(ref, finished)];
    }

    method RemoveState(ref: Ref)
      modifies this`files, this`exits
      ensures files == old(files) - {name(ref)} && exits == old(exits) - {name(ref)}
    {
      files := files - {name(ref)};
      exits := exits - {name(ref)};
    }

    /** Evicts every finished task whose result has outlived its time-to-live. */
    method SweepFinishedLocked()
      modifies this`tasks, this`files, this`exits, this`kept
      ensures State() == Sweep(old(State()))
    {
      var todo := tasks.Keys;
      ghost var gone: set<Ref> := {};
      while todo != {}
        invariant todo <= old(tasks).Keys
        invariant gone == Expired(old(tasks), now) - todo
        invariant tasks == old(tasks) - gone && kept == old(kept)
        invariant files == old(files) - Names(name, gone) && exits == old(exits) - Names(name, gone)
        decreases todo
      {
        var ref :| ref in todo;
        todo := todo - {ref};
        if ref in tasks && tasks[ref].finished && now - tasks[ref].at > FINISHED_TASK_TTL {
          tasks := tasks - {ref};
          RemoveState(ref);
          NamesOneMore(name, gone, ref);
          gone := gone + {ref};
        }
      }
      assert gone == Expired(old(tasks), now);
      kept := kept - gone;
    }

    /** The first critical section of Launch; `isNew` tells whether this call is to start the process. */
    method BeginLaunch(id: nat, ref: Ref) returns (isNew: bool)
      requires mode.Serving? && id !in launching
      modifies this`tasks, this`files, this`exits, this`kept, this`launching
      ensures State() == Next(old(State()), LaunchBegin(id, ref))
      ensures isNew <==> ref != "" && (ref in old(tasks) ==> ref in Expired(old(tasks), now))
    {
      if ref == "" {
        return false;
      }
      SweepFinishedLocked();
      if ref in tasks {
        return false;
      }
      tasks := tasks[ref := Entry(false, 0)];
      launching := launching[id := Launch(ref, false)];
      isNew := true;
    }

    method Forget(id: nat)
      requires id in launching
      modifies this`tasks, this`launching
      ensures State() == Next(old(State()), LaunchFails(id))
    {
      tasks := tasks - {launching[id].ref};
      launching := launching - {id};
    }

    /** The end of Launch: the process is recorded and its waiter starts. */
    method FinishLaunch(id: nat, waiter: nat)
      requires id in launching && launching[id].started && waiter !in waiters
      modifies this`files, this`launching, this`waiters, this`kept
      ensures State() == Next(old(State()), LaunchReturns(id, waiter))
    {
      var ref := launching[id].ref;
      SaveState(ref, false);
      waiters := waiters[waiter := Waiter(ref, false)];
      launching := launching - {id};
      kept := kept + {ref};
    }

    /** The process is gone: wait and watchAdopted first mark the entry, then save it. */
    method MarkFinished(waiter: nat)
      requires waiter in waiters && !waiters[waiter].marked
      modifies this`tasks, this`waiters
      ensures State() == Next(old(State()), WaiterMarks(waiter))
    {
      var ref := waiters[waiter].ref;
      if ref in tasks {
        tasks := tasks[ref := Entry(true, now)];
      }
      waiters := waiters[waiter := Waiter(ref, true)];
    }

    method ProbeRef(ref: Ref) returns (phase: Phase)
      ensures phase == Probe(State(), ref)
    {
      if ref !in tasks {
        return PhaseUnknown;
      }
      phase := if tasks[ref].finished then PhaseExited else PhaseRunning;
    }

    /** One file of the recovery listing; `registered` tells whether its record must be saved again. */
    method AdoptFile(file: string, alive: bool, waiter: nat) returns (registered: bool)
      requires mode.Recovering? && mode.saving.None? && file in mode.todo && waiter !in waiters
      requires file in files && name(files[file].ref) == file
      modifies this`tasks, this`waiters, this`mode
      ensures State() == Next(old(State()), RecoverEntry(file, alive, waiter))
      ensures registered <==> files[file].ref !in old(tasks)
      ensures tasks.Keys == old(tasks).Keys + {files[file].ref} && waiters.Keys <= old(waiters).Keys + {waiter}
      ensures mode == Recovering(old(mode).todo - {file}, if registered then Some(files[file].ref) else None)
      ensures registered ==> var over := files[file].finished || file in exits || !alive;
        && tasks == old(tasks)[files[file].ref := if over then Entry(true, now) else Entry(false, 0)]
        && waiters == if over then old(waiters) else old(waiters)[waiter := Waiter(files[file].ref, false)]
    {
      var ref := files[file].ref;
      mode := Recovering(mode.todo - {file}, None);
      if ref in tasks {
        return false;
      }
      mode := mode.(saving := Some(ref));
      if files[file].finished || file in exits {
        tasks := tasks[ref := Entry(true, now)];
      } else if alive {
        tasks := tasks[ref := Entry(false, 0)];
        waiters := waiters[waiter := Waiter(ref, false)];
      } else {
        tasks := tasks[ref := Entry(true, now)];
      }
      registered := true;
    }

    method SaveAdopted(ref: Ref)
      requires mode.Recovering? && mode.saving == Some(ref) && ref in tasks
      modifies this`files, this`mode
      ensures State() == Next(old(State()), RecoverSave)
      ensures files == old(files)[name(ref) := Record(ref, tasks[ref].finished)]
      ensures mode == old(mode).(saving := None)
    {
      SaveState(ref, tasks[ref].finished);
      mode := mode.(saving := None);
    }

    /** One round of the recovery loop, as steps appended to those taken since `start`. */
    method RecoverFile(file: string, alive: bool, waiter: nat, ghost start: System, ghost before: seq<Step>)
      returns (ghost steps: seq<Step>)
      requires State() == Run(start, before) && AllRecovery(before)
      requires mode.Recovering? && mode.saving.None? && file in mode.todo && waiter !in waiters
      requires file in files && name(files[file].ref) == file
      modifies this`tasks, this`waiters, this`mode, this`files
      ensures State() == Run(start, steps) && AllRecovery(steps)
      ensures mode == Recovering(old(mode).todo - {file}, None)
      ensures SameRefs(old(files), files)
      ensures tasks.Keys == old(tasks).Keys + {old(files)[file].ref} && waiters.Keys <= old(waiters).Keys + {waiter}
    {
      ghost var adopt := RecoverEntry(file, alive, waiter);
      RunSnoc(start, before, adopt);
      steps := before + [adopt];
      var registered := AdoptFile(file, alive, waiter);
      if registered {
        RunSnoc(start, steps, RecoverSave);
        steps := steps + [RecoverSave];
        SaveAdopted(files[file].ref);
      }
    }

    method BeginRecovery()
      requires mode.Down?
      modifies this`mode
      ensures State() == Next(old(State()), RecoverBegin) && mode == Recovering(files.Keys, None)
    {
      mode := Recovering(files.Keys, None);
    }

    method EndRecovery()
      requires mode == Recovering({}, None)
      modifies this`mode
      ensures State() == Next(old(State()), RecoverEnd) && mode.Serving?
    {
      mode := Serving;
    }

    method RecoverFiles(alive: set<string>, ghost start: System, ghost before: seq<Step>)
      returns (ghost steps: seq<Step>)
      requires State() == Run(start, before) && AllRecovery(before)
      requires mode == Recovering(files.Keys, None) && waiters == map[]
      requires forall f :: f in files ==> name(files[f].ref) == f
      modifies this`tasks, this`files, this`waiters, this`mode
      ensures State() == Run(start, steps) && AllRecovery(steps) && mode == Recovering({}, None)
      ensures SameRefs(old(files), files) && Covered(files, tasks.Keys, {})
    {
      var todo := files.Keys;
      var next := 0;
      steps := before;
      while todo != {}
        invariant mode == Recovering(todo, None) && todo <= files.Keys
        invariant State() == Run(start, steps) && AllRecovery(steps)
        invariant SameRefs(old(files), files) && Covered(files, tasks.Keys, todo)
        invariant Below(waiters, next)
        decreases todo
      {
        var file :| file in todo;
        ghost var listed, known, waiting := files, tasks.Keys, waiters;
        steps := RecoverFile(file, file in alive, next, start, steps);
        CoverOne(old(files), listed, files, known, todo, file);
        BelowOneMore(waiting, waiters, next);
        todo := todo - {file};
        next := next + 1;
      }
    }

    /** Every record becomes known before launches are served; `alive` are those whose process group lives. */
    method RecoverState(alive: set<string>) returns (ghost steps: seq<Step>)
      requires mode.Down? && waiters == map[]
      requires forall f :: f in files ==> name(files[f].ref) == f
      modifies this`tasks, this`files, this`waiters, this`mode
      ensures State() == Run(old(State()), steps) && AllRecovery(steps) && mode.Serving?
      ensures forall f :: f in old(files) ==> old(files)[f].ref in tasks
    {
      ghost var start := State();
      RunOne(start, RecoverBegin);
      BeginRecovery();
      steps := RecoverFiles(alive, start, [RecoverBegin]);
      RunSnoc(start, steps, RecoverEnd);
      steps := steps + [RecoverEnd];
      EndRecovery();
    }
  }

  predicate SameRefs(before: map<string, Record>, after: map<string, Record>) {
    after.Keys == before.Keys && forall f :: f in before ==> after[f].ref == before[f].ref
  }

  /** Every record outside `todo` belongs to a known reference. */
  predicate Covered(files: map<string, Record>, known: set<Ref>, todo: set<string>) {
    forall f :: f in files ==> f in todo || files[f].ref in known
  }

  lemma CoverOne(first: map<string, Record>, files: map<string, Record>, after: map<string, Record>, known: set<Ref>,
                 todo: set<string>, file: string)
    requires SameRefs(first, files) && SameRefs(files, after) && Covered(files, known, todo) && file in files
    ensures SameRefs(first, after) && Covered(after, known + {files[file].ref}, todo - {file})
  {
  }

  predicate Below(waiters: map<nat, Waiter>, next: nat) {
    forall w :: w in waiters ==> w < next
  }

  lemma BelowOneMore(waiters: map<nat, Waiter>, after: map<nat, Waiter>, next: nat)
    requires Below(waiters, next) && after.Keys <= waiters.Keys + {next}
    ensures Below(after, next + 1)
  {
    forall w | w in after
      ensures w < next + 1
    {
      assert w in after.Keys;
    }
  }

  ghost predicate AllRecovery(steps: seq<Step>) {
    forall k :: 0 <= k < |steps| ==>
      steps[k].RecoverBegin? || steps[k].RecoverEntry? || steps[k].RecoverSave? || steps[k].RecoverEnd?
  }

  lemma NamesOneMore(name: Ref -> string, gone: set<Ref>, ref: Ref)
    ensures Names(name, gone + {ref}) == Names(name, gone) + {name(ref)}
  {
    assert ref in gone + {ref};
    forall f | f in Names(name, gone)
      ensures f in Names(name, gone + {ref})
    {
      var r :| r in gone && name(r) == f;
      assert r in gone + {ref};
    }
  }
}
