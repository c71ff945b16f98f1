/**
 Cross-DAG triggers through the durable event outbox
 (internal/scheduler/scheduler.go processPendingDependencyEvents and triggerDownstreams,
 internal/store/store.go UpdateDagRunSuccess and CreateDagRunBounded).
 Runs are never pruned, and no run carries the manual dependency_sync_key parameter.
 */
module FanIn {
  import opened TaskModel

  /** A run id spells out DAG and logical date, or is some other kind of name. */
  datatype RunId = Dated(dag: string, date: int) | Named(name: string)

  datatype DagRun = DagRun(dag: string, date: int, state: RunState)

  /** `ups` lists each downstream DAG's upstreams, `registered` the DAGs not archived, `tasked` those with tasks. */
  datatype Topology = Topology(ups: map<string, set<string>>, registered: set<string>, tasked: set<string>,
                               queueLimit: nat)

  /** One pass over one event; several may be under way at once. */
  datatype Delivery = Delivery(event: RunId, todo: set<string>, deferred: bool, obsolete: bool)

  /** `pending` holds the runs whose success event is not consumed. */
  datatype System = System(runs: map<RunId, DagRun>, pending: set<RunId>, active: map<nat, Delivery>)

  function Start(): System {
    System(map[], {}, map[])
  }

  function Downs(t: Topology, up: string): set<string> {
    set dn | dn in t.ups && up in t.ups[dn]
  }

  function QueuedIn(runs: map<RunId, DagRun>): set<RunId> {
    set id | id in runs && runs[id].state == RunQueued
  }

  function QueuedRuns(s: System): set<RunId> {
    QueuedIn(s.runs)
  }

  predicate Exists(s: System, dag: string, date: int) {
    exists id :: id in s.runs && s.runs[id].dag == dag && s.runs[id].date == date
  }

  predicate Succeeded(s: System, dag: string, date: int) {
    exists id :: id in s.runs && s.runs[id].dag == dag && s.runs[id].date == date && s.runs[id].state == RunSuccess
  }

  datatype Created = Inserted(s: System) | AlreadyExists | QueueFull | NotFound

  /** An insert that only the run's uniqueness can refuse. */
  function Create(s: System, id: RunId, dag: string, date: int): Created {
    if id in s.runs || Exists(s, dag, date) then AlreadyExists
    else Inserted(s.(runs := s.runs[id := DagRun(dag, date, RunQueued)]))
  }

  /** The bounded insert: an archived DAG, then a full queue, is reported before a duplicate is noticed. */
  function CreateBounded(t: Topology, s: System, id: RunId, dag: string, date: int): Created {
    if dag !in t.registered then NotFound
    else if |QueuedRuns(s)| >= t.queueLimit then QueueFull
    else Create(s, id, dag, date)
  }

  /** Every upstream is registered and succeeded for the date, and the downstream is registered and has tasks. */
  predicate Fires(t: Topology, s: System, dn: string, date: int) {
    dn in t.ups && dn in t.registered && dn in t.tasked && UpstreamsDone(t, s, dn, date)
  }

  predicate UpstreamsDone(t: Topology, s: System, dn: string, date: int)
    requires dn in t.ups
  {
    forall up :: up in t.ups[dn] ==> up in t.registered && Succeeded(s, up, date)
  }

  datatype Step =
    | NewRun(id: RunId, dag: string, date: int)
    | Succeed(id: RunId)
    | Move(id: RunId, state: RunState)
    | Begin(k: nat, id: RunId)
    | Visit(k: nat, dn: string)
    | Finish(k: nat)
    | Abort(k: nat)
    | DropOrphan(id: RunId)
    | Crash

  /** One step; a step that is not enabled changes nothing. */
  function Next(t: Topology, s: System, step: Step): System {
    match step
    case NewRun(id, dag, date) =>
      // any other creator, whatever else it may be refused for: schedule, operator, backfill, external event
      if id.Dated? && (id.dag != dag || id.date != date) then s
      else
        var c := Create(s, id, dag, date);
        if c.Inserted? then c.s else s
    case Succeed(id) =>
      // state and event in one transaction; a consumed event is armed again
      if id in s.runs then
        s.(runs := s.runs[id := s.runs[id].(state := RunSuccess)], pending := s.pending + {id})
      else s
    case Move(id, state) =>
      if id in s.runs && state != RunSuccess then s.(runs := s.runs[id := s.runs[id].(state := state)]) else s
    case Begin(k, id) =>
      if k in s.active || id !in s.pending || id !in s.runs then s
      else if s.runs[id].state == RunSuccess then
        s.(active := s.active[k := Delivery(id, Downs(t, s.runs[id].dag), false, false)])
      else if s.runs[id].state.IsTerminal() then
        s.(active := s.active[k := Delivery(id, {}, false, true)])
      else s
    case Visit(k, dn) =>
      if k in s.active && dn in s.active[k].todo && s.active[k].event in s.runs then
        var d := s.active[k];
        var date := s.runs[d.event].date;
        var visited := d.(todo := d.todo - {dn});
        if !Fires(t, s, dn, date) then s.(active := s.active[k := visited])
        else
          match CreateBounded(t, s, Dated(dn, date), dn, date)
          case QueueFull => s.(active := s.active[k := visited.(deferred := true)])
          case AlreadyExists => s.(active := s.active[k := visited])
          case NotFound => s.(active := s.active[k := visited])
          case Inserted(s') => s'.(active := s.active[k := visited])
      else s
    case Finish(k) =>
      if k in s.active && s.active[k].todo == {} then
        s.(pending := if s.active[k].deferred then s.pending else s.pending - {s.active[k].event},
           active := s.active - {k})
      else s
    case Abort(k) =>
      s.(active := s.active - {k})
    case DropOrphan(id) =>
      if id in s.runs then s else s.(pending := s.pending - {id})
    case Crash =>
      s.(active := map[])
  }

  function Run(t: Topology, s: System, steps: seq<Step>): System
    decreases |steps|
  {
    if |steps| == 0 then s else Run(t, Next(t, s, steps[0]), steps[1..])
  }

  // ---- what may not happen, and what then holds ----

  /** At most one run per DAG and logical date, and dated ids tell the truth. */
  ghost predicate UniqueRuns(runs: map<RunId, DagRun>) {
    && (forall a, b :: a in runs && b in runs && runs[a].dag == runs[b].dag && runs[a].date == runs[b].date ==> a == b)
    && forall id :: id in runs && id.Dated? ==> runs[id].dag == id.dag && runs[id].date == id.date
  }

  ghost predicate OneRunEach(s: System) {
    UniqueRuns(s.runs)
  }

  /** All upstreams succeeded for the date, but the downstream has no run for it. */
  ghost predicate Owed(t: Topology, s: System, dn: string, date: int) {
    Fires(t, s, dn, date) && t.ups[dn] != {} && !Exists(s, dn, date)
  }

  /** Delivery `d` will still look at `dn`, or will leave its event pending. */
  ghost predicate StillHelps(d: Delivery, dn: string) {
    dn in d.todo || d.deferred
  }

  /** The event of run `id` will yet trigger `dn`. */
  ghost predicate Promises(s: System, id: RunId, dn: string) {
    id in s.pending && forall k :: k in s.active && s.active[k].event == id ==> StillHelps(s.active[k], dn)
  }

  ghost predicate Promised(t: Topology, s: System, dn: string, date: int) {
    dn in t.ups && exists id ::
      id in s.runs && s.runs[id].dag in t.ups[dn] && s.runs[id].date == date && Promises(s, id, dn)
  }

  ghost predicate NothingLost(t: Topology, s: System) {
    forall dn, date {:trigger Owed(t, s, dn, date)} :: Owed(t, s, dn, date) ==> Promised(t, s, dn, date)
  }

  ghost predicate Deliveries(s: System) {
    forall k :: k in s.active ==>
      && s.active[k].event in s.runs
      && (s.active[k].obsolete ==> !s.active[k].deferred && s.active[k].todo == {})
  }

  ghost predicate Inv(t: Topology, s: System) {
    OneRunEach(s) && Deliveries(s) && NothingLost(t, s)
  }

  /** `dn` lacks only the success of run `id` to fall due, and has no run. */
  ghost predicate WaitsFor(t: Topology, s: System, id: RunId, dn: string)
    requires id in s.runs
  {
    var r := s.runs[id];
    && dn in t.ups && dn in t.registered && dn in t.tasked && r.dag in t.ups[dn] && !Exists(s, dn, r.date)
    && r.state != RunSuccess
    && forall up :: up in t.ups[dn] ==> up in t.registered && (up == r.dag || Succeeded(s, up, r.date))
  }

  /**
   Marking run `id` successful now would come too late for `dn`: a delivery of its event
   under way has already passed `dn`, and no other upstream's event will trigger it.
   */
  ghost predicate Overtakes(t: Topology, s: System, id: RunId, dn: string)
    requires id in s.runs
  {
    && WaitsFor(t, s, id, dn)
    && (exists k :: k in s.active && s.active[k].event == id && !StillHelps(s.active[k], dn))
    && forall r :: r in s.runs && r != id && s.runs[r].dag in t.ups[dn] && s.runs[r].date == s.runs[id].date ==>
         !Promises(s, r, dn)
  }

  ghost predicate Loses(t: Topology, s: System, step: Step) {
    step.Succeed? && step.id in s.runs && exists dn :: Overtakes(t, s, step.id, dn)
  }

  ghost predicate Orderly(t: Topology, s: System, steps: seq<Step>)
    decreases |steps|
  {
    |steps| == 0 || (!Loses(t, s, steps[0]) && Orderly(t, Next(t, s, steps[0]), steps[1..]))
  }

  /** A promise survives a step that keeps the run, its pending event and the deliveries of that event. */
  lemma PromiseStays(t: Topology, s: System, u: System, dn: string, date: int)
    requires Promised(t, s, dn, date)
    requires KeepsRuns(s, u) && s.pending <= u.pending
    requires forall k :: k in u.active ==>
      && (u.active[k].event !in s.pending ||
          (k in s.active && s.active[k].event == u.active[k].event
           && (StillHelps(s.active[k], dn) ==> StillHelps(u.active[k], dn)))
          || StillHelps(u.active[k], dn))
    ensures Promised(t, u, dn, date)
  {
    var id :| id in s.runs && s.runs[id].dag in t.ups[dn] && s.runs[id].date == date && Promises(s, id, dn);
    assert Promises(u, id, dn);
  }

  /** `u` has the runs of `s`, possibly in other states, and perhaps more. */
  ghost predicate KeepsRuns(s: System, u: System) {
    forall id :: id in s.runs ==> id in u.runs && u.runs[id].dag == s.runs[id].dag && u.runs[id].date == s.runs[id].date
  }

  lemma StillExists(s: System, u: System, dag: string, date: int)
    requires KeepsRuns(s, u)
    ensures Exists(s, dag, date) ==> Exists(u, dag, date)
  {
    if Exists(s, dag, date) {
      var r :| r in s.runs && s.runs[r].dag == dag && s.runs[r].date == date;
      RunExists(u, r);
    }
  }

  lemma RunExists(u: System, r: RunId)
    requires r in u.runs
    ensures Exists(u, u.runs[r].dag, u.runs[r].date)
  {
  }

  /** Runs that succeeded in `u` had succeeded in `s`. */
  ghost predicate NoNewSuccess(s: System, u: System) {
    forall id :: id in u.runs && u.runs[id].state == RunSuccess ==> id in s.runs && s.runs[id] == u.runs[id]
  }

  lemma FiredBefore(t: Topology, s: System, u: System, dn: string, date: int)
    requires NoNewSuccess(s, u) && Fires(t, u, dn, date)
    ensures Fires(t, s, dn, date)
  {
    forall up | up in t.ups[dn]
      ensures Succeeded(s, up, date)
    {
      var r :| r in u.runs && u.runs[r].dag == up && u.runs[r].date == date && u.runs[r].state == RunSuccess;
      assert s.runs[r] == u.runs[r];
    }
  }

  lemma InsertKeepsInv(t: Topology, s: System, id: RunId, dag: string, date: int)
    requires Inv(t, s) && (id.Dated? ==> id.dag == dag && id.date == date)
    requires Create(s, id, dag, date).Inserted?
    ensures Inv(t, Create(s, id, dag, date).s)
    ensures Exists(Create(s, id, dag, date).s, dag, date)
  {
    var u := Create(s, id, dag, date).s;
    assert u.runs[id] == DagRun(dag, date, RunQueued);
    RunExists(u, id);
    forall dn, d | Owed(t, u, dn, d)
      ensures Promised(t, u, dn, d)
    {
      FiredBefore(t, s, u, dn, d);
      StillExists(s, u, dn, d);
      assert Owed(t, s, dn, d);
      PromiseStays(t, s, u, dn, d);
    }
  }

  /** What falls due by a success: what was due before, and what waited for it. */
  lemma SuccessMakesDue(t: Topology, s: System, id: RunId, dn: string, d: int)
    requires OneRunEach(s) && id in s.runs
    ensures var u := Next(t, s, Succeed(id));
      Owed(t, u, dn, d) <==> Owed(t, s, dn, d) || (WaitsFor(t, s, id, dn) && d == s.runs[id].date)
  {
    var u := Next(t, s, Succeed(id));
    var r := s.runs[id];
    StillExists(s, u, dn, d);
    StillExists(u, s, dn, d);
    forall up
      ensures Succeeded(u, up, d) <==> Succeeded(s, up, d) || (up == r.dag && d == r.date)
    {
      SuccessOfOne(t, s, id, up, d);
    }
    if Succeeded(s, r.dag, r.date) {
      var q :| q in s.runs && s.runs[q].dag == r.dag && s.runs[q].date == r.date && s.runs[q].state == RunSuccess;
      assert q == id;
    }
  }

  lemma SuccessOfOne(t: Topology, s: System, id: RunId, up: string, d: int)
    requires id in s.runs
    ensures Succeeded(Next(t, s, Succeed(id)), up, d)
            <==> Succeeded(s, up, d) || (up == s.runs[id].dag && d == s.runs[id].date)
  {
    var u := Next(t, s, Succeed(id));
    if Succeeded(s, up, d) {
      var q :| q in s.runs && s.runs[q].dag == up && s.runs[q].date == d && s.runs[q].state == RunSuccess;
      assert q in u.runs && u.runs[q].state == RunSuccess;
    }
    assert u.runs[id].state == RunSuccess;
  }

  /** The success's own event, armed now, promises what no delivery of it has passed. */
  lemma PromisedAfterSuccess(t: Topology, s: System, id: RunId, dn: string)
    requires id in s.runs && WaitsFor(t, s, id, dn)
    ensures Promised(t, Next(t, s, Succeed(id)), dn, s.runs[id].date) <==> !Overtakes(t, s, id, dn)
  {
    var u := Next(t, s, Succeed(id));
    var d := s.runs[id].date;
    if Promised(t, u, dn, d) {
      var r :| r in u.runs && u.runs[r].dag in t.ups[dn] && u.runs[r].date == d && Promises(u, r, dn);
      assert r != id ==> Promises(s, r, dn);
    }
    if !Overtakes(t, s, id, dn) {
      if exists k :: k in s.active && s.active[k].event == id && !StillHelps(s.active[k], dn) {
        var r :| r in s.runs && r != id && s.runs[r].dag in t.ups[dn] && s.runs[r].date == d && Promises(s, r, dn);
        assert Promises(u, r, dn);
      } else {
        assert Promises(u, id, dn);
      }
    }
  }

  /** Recording a success together with its event loses no trigger exactly when it overtakes none. */
  lemma SucceedLosesIffOvertakes(t: Topology, s: System, id: RunId)
    requires Inv(t, s) && id in s.runs
    ensures NothingLost(t, Next(t, s, Succeed(id))) <==> !exists dn :: Overtakes(t, s, id, dn)
  {
    var u := Next(t, s, Succeed(id));
    if dn :| Overtakes(t, s, id, dn) {
      SuccessMakesDue(t, s, id, dn, s.runs[id].date);
      PromisedAfterSuccess(t, s, id, dn);
    } else {
      forall dn, d | Owed(t, u, dn, d)
        ensures Promised(t, u, dn, d)
      {
        SuccessMakesDue(t, s, id, dn, d);
        if WaitsFor(t, s, id, dn) && d == s.runs[id].date {
          assert !Overtakes(t, s, id, dn);
          PromisedAfterSuccess(t, s, id, dn);
        } else {
          assert Owed(t, s, dn, d);
          StandingPromiseStays(t, s, id, dn, d);
        }
      }
    }
  }

  lemma StandingPromiseStays(t: Topology, s: System, id: RunId, dn: string, d: int)
    requires Inv(t, s) && id in s.runs && Owed(t, s, dn, d)
    ensures Promised(t, Next(t, s, Succeed(id)), dn, d)
  {
    var r :| r in s.runs && s.runs[r].dag in t.ups[dn] && s.runs[r].date == d && Promises(s, r, dn);
    assert Promises(Next(t, s, Succeed(id)), r, dn);
  }

  lemma SucceedKeepsInv(t: Topology, s: System, id: RunId)
    requires Inv(t, s)
    ensures Inv(t, Next(t, s, Succeed(id))) <==> !Loses(t, s, Succeed(id))
  {
    if id in s.runs {
      SucceedLosesIffOvertakes(t, s, id);
    }
  }

  lemma MoveKeepsInv(t: Topology, s: System, id: RunId, state: RunState)
    requires Inv(t, s)
    ensures Inv(t, Next(t, s, Move(id, state)))
  {
    var u := Next(t, s, Move(id, state));
    if id in s.runs && state != RunSuccess {
      forall dn, d | Owed(t, u, dn, d)
        ensures Promised(t, u, dn, d)
      {
        FiredBefore(t, s, u, dn, d);
        StillExists(s, u, dn, d);
        assert Owed(t, s, dn, d);
        PromiseStays(t, s, u, dn, d);
      }
    }
  }

  lemma BeginKeepsInv(t: Topology, s: System, k: nat, id: RunId)
    requires Inv(t, s)
    ensures Inv(t, Next(t, s, Begin(k, id)))
  {
    var u := Next(t, s, Begin(k, id));
    if u != s {
      forall dn, d | Owed(t, u, dn, d)
        ensures Promised(t, u, dn, d)
      {
        assert Owed(t, s, dn, d);
        var r :| r in s.runs && s.runs[r].dag in t.ups[dn] && s.runs[r].date == d && Promises(s, r, dn);
        if r == id {
          SuccessOfUpstream(t, s, dn, d, id);
        }
        BegunStillPromises(t, s, k, id, r, dn);
      }
    }
  }

  lemma BegunStillPromises(t: Topology, s: System, k: nat, id: RunId, r: RunId, dn: string)
    requires k !in s.active && id in s.pending && id in s.runs
    requires r == id ==> s.runs[id].state == RunSuccess && dn in Downs(t, s.runs[id].dag)
    requires Promises(s, r, dn)
    ensures Promises(Next(t, s, Begin(k, id)), r, dn)
  {
  }

  /** When `dn` fires for a date, any run of one of its upstreams for that date is the successful one. */
  lemma SuccessOfUpstream(t: Topology, s: System, dn: string, date: int, id: RunId)
    requires OneRunEach(s) && Fires(t, s, dn, date)
    requires id in s.runs && s.runs[id].dag in t.ups[dn] && s.runs[id].date == date
    ensures s.runs[id].state == RunSuccess
  {
    assert Succeeded(s, s.runs[id].dag, date);
  }

  lemma VisitKeepsInv(t: Topology, s: System, k: nat, dn: string)
    requires Inv(t, s)
    ensures Inv(t, Next(t, s, Visit(k, dn)))
  {
    var u := Next(t, s, Visit(k, dn));
    if k in s.active && dn in s.active[k].todo && s.active[k].event in s.runs {
      var d := s.active[k];
      var date := s.runs[d.event].date;
      var visited := d.(todo := d.todo - {dn});
      if Fires(t, s, dn, date) && CreateBounded(t, s, Dated(dn, date), dn, date).Inserted? {
        InsertKeepsInv(t, s, Dated(dn, date), dn, date);
        var m := Create(s, Dated(dn, date), dn, date).s;
        VisitedKeeps(t, m, k, dn, visited);
      } else if Fires(t, s, dn, date) && CreateBounded(t, s, Dated(dn, date), dn, date).QueueFull? {
        DeferredKeeps(t, s, k, visited.(deferred := true));
      } else {
        if Fires(t, s, dn, date) && Dated(dn, date) in s.runs {
          assert s.runs[Dated(dn, date)].dag == dn && s.runs[Dated(dn, date)].date == date;
          assert Exists(s, dn, date);
        }
        VisitedKeeps(t, s, k, dn, visited);
      }
    }
  }

  /** Ticking off a downstream that is not owed anything for the event's date breaks no promise. */
  lemma VisitedKeeps(t: Topology, s: System, k: nat, dn: string, visited: Delivery)
    requires Inv(t, s) && k in s.active && visited == s.active[k].(todo := s.active[k].todo - {dn})
    requires !Owed(t, s, dn, s.runs[s.active[k].event].date)
    ensures Inv(t, s.(active := s.active[k := visited]))
  {
    var u := s.(active := s.active[k := visited]);
    forall other, d | Owed(t, u, other, d)
      ensures Promised(t, u, other, d)
    {
      assert Owed(t, s, other, d);
      var r :| r in s.runs && s.runs[r].dag in t.ups[other] && s.runs[r].date == d && Promises(s, r, other);
      assert Promises(u, r, other);
    }
  }

  lemma DeferredKeeps(t: Topology, s: System, k: nat, visited: Delivery)
    requires Inv(t, s) && k in s.active && visited.deferred
    requires visited.event == s.active[k].event && !s.active[k].obsolete && !visited.obsolete
    ensures Inv(t, s.(active := s.active[k := visited]))
  {
    var u := s.(active := s.active[k := visited]);
    forall other, d | Owed(t, u, other, d)
      ensures Promised(t, u, other, d)
    {
      assert Owed(t, s, other, d);
      PromiseStays(t, s, u, other, d);
    }
  }

  lemma FinishKeepsInv(t: Topology, s: System, k: nat)
    requires Inv(t, s)
    ensures Inv(t, Next(t, s, Finish(k)))
  {
    var u := Next(t, s, Finish(k));
    forall dn, d | Owed(t, u, dn, d)
      ensures Promised(t, u, dn, d)
    {
      assert Owed(t, s, dn, d);
      var r :| r in s.runs && s.runs[r].dag in t.ups[dn] && s.runs[r].date == d && Promises(s, r, dn);
      FinishedStillPromises(t, s, k, r, dn);
    }
  }

  /** A finished delivery consumes its event only if it owed nothing to anyone it still promised. */
  lemma FinishedStillPromises(t: Topology, s: System, k: nat, r: RunId, dn: string)
    requires Promises(s, r, dn)
    ensures Promises(Next(t, s, Finish(k)), r, dn)
  {
    if k in s.active && s.active[k].event == r {
      assert StillHelps(s.active[k], dn);
    }
  }

  lemma StepKeepsInv(t: Topology, s: System, step: Step)
    requires Inv(t, s)
    ensures Inv(t, Next(t, s, step)) <==> !Loses(t, s, step)
  {
    match step
    case NewRun(id, dag, date) =>
      if !(id.Dated? && (id.dag != dag || id.date != date)) && Create(s, id, dag, date).Inserted? {
        InsertKeepsInv(t, s, id, dag, date);
      }
    case Succeed(id) => SucceedKeepsInv(t, s, id);
    case Move(id, state) => MoveKeepsInv(t, s, id, state);
    case Begin(k, id) => BeginKeepsInv(t, s, k, id);
    case Visit(k, dn) => VisitKeepsInv(t, s, k, dn);
    case Finish(k) => FinishKeepsInv(t, s, k);
    case Abort(k) => FewerDeliveries(t, s, s.active - {k});
    case DropOrphan(id) => OrphanKeepsInv(t, s, id);
    case Crash => FewerDeliveries(t, s, map[]);
  }

  /** A delivery cut short, by an error or a crash, leaves its event pending. */
  lemma FewerDeliveries(t: Topology, s: System, active: map<nat, Delivery>)
    requires Inv(t, s) && forall k :: k in active ==> k in s.active && active[k] == s.active[k]
    ensures Inv(t, s.(active := active))
  {
    var u := s.(active := active);
    forall dn, d | Owed(t, u, dn, d)
      ensures Promised(t, u, dn, d)
    {
      assert Owed(t, s, dn, d);
      PromiseStays(t, s, u, dn, d);
    }
  }

  lemma OrphanKeepsInv(t: Topology, s: System, id: RunId)
    requires Inv(t, s)
    ensures Inv(t, Next(t, s, DropOrphan(id)))
  {
    var u := Next(t, s, DropOrphan(id));
    forall dn, d | Owed(t, u, dn, d)
      ensures Promised(t, u, dn, d)
    {
      assert Owed(t, s, dn, d);
      var r :| r in s.runs && s.runs[r].dag in t.ups[dn] && s.runs[r].date == d && Promises(s, r, dn);
      assert Promises(u, r, dn);
    }
  }

  lemma {:induction false} RunKeepsInv(t: Topology, s: System, steps: seq<Step>)
    requires Inv(t, s) && Orderly(t, s, steps)
    ensures Inv(t, Run(t, s, steps))
    decreases |steps|
  {
    if |steps| > 0 {
      StepKeepsInv(t, s, steps[0]);
      RunKeepsInv(t, Next(t, s, steps[0]), steps[1..]);
    }
  }

  /** Along a run every owed trigger is promised at every moment exactly when no success overtakes a delivery. */
  lemma {:induction false} NothingLostIffOrderly(t: Topology, s: System, steps: seq<Step>)
    requires Inv(t, s)
    ensures Orderly(t, s, steps) <==> forall n :: 0 <= n <= |steps| ==> NothingLost(t, Run(t, s, steps[..n]))
    decreases |steps|
  {
    if |steps| > 0 {
      var u := Next(t, s, steps[0]);
      StepKeepsInv(t, s, steps[0]);
      if Loses(t, s, steps[0]) {
        SucceedLosesIffOvertakes(t, s, steps[0].id);
        assert steps[..1][1..] == [];
        assert Run(t, s, steps[..1]) == Run(t, u, []) == u;
      } else {
        NothingLostIffOrderly(t, u, steps[1..]);
        ShiftByOne(t, s, steps);
      }
    } else {
      assert steps[..0] == [];
    }
  }

  lemma ShiftByOne(t: Topology, s: System, steps: seq<Step>)
    requires |steps| > 0 && NothingLost(t, s)
    ensures (forall n :: 0 <= n <= |steps| ==> NothingLost(t, Run(t, s, steps[..n])))
       <==> (forall m :: 0 <= m <= |steps[1..]| ==> NothingLost(t, Run(t, Next(t, s, steps[0]), steps[1..][..m])))
  {
    var u := Next(t, s, steps[0]);
    assert Run(t, s, steps[..0]) == s;
    forall n | 0 < n <= |steps|
      ensures Run(t, s, steps[..n]) == Run(t, u, steps[1..][..n - 1])
    {
      assert steps[..n][1..] == steps[1..][..n - 1];
    }
    forall m | 0 <= m <= |steps[1..]|
      ensures Run(t, u, steps[1..][..m]) == Run(t, s, steps[..m + 1])
    {
      assert steps[..m + 1][1..] == steps[1..][..m];
    }
  }

  // ---- what a delivery creates ----

  /** A run of the DAG for the date ended in success. */
  ghost predicate SucceededFor(s: System, dag: string, date: int) {
    exists id :: id in s.runs && s.runs[id] == DagRun(dag, date, RunSuccess)
  }

  /** Everything a dependency run needs: itself live and with tasks, and every upstream live and successful for the date. */
  ghost predicate AllUpstreamsSucceeded(t: Topology, s: System, dn: string, date: int) {
    && dn in t.ups && dn in t.registered && dn in t.tasked
    && forall up :: up in t.ups[dn] ==> up in t.registered && SucceededFor(s, up, date)
  }

  lemma FiresWrittenOut(t: Topology, s: System, dn: string, date: int)
    ensures Fires(t, s, dn, date) <==> AllUpstreamsSucceeded(t, s, dn, date)
  {
    forall up
      ensures Succeeded(s, up, date) <==> SucceededFor(s, up, date)
    {
      if Succeeded(s, up, date) {
        var id :| id in s.runs && s.runs[id].dag == up && s.runs[id].date == date && s.runs[id].state == RunSuccess;
        assert s.runs[id] == DagRun(up, date, RunSuccess);
      }
    }
  }

  /**
   A delivery creates at most the queued run of the downstream it looks at, for the date of its
   event, and only if every upstream has succeeded for that date and the queue has room.
   */
  lemma CreatedOnlyWhenDue(t: Topology, s: System, k: nat, dn: string, id: RunId)
    requires id in Next(t, s, Visit(k, dn)).runs && id !in s.runs
    ensures k in s.active && s.active[k].event in s.runs && dn in s.active[k].todo
    ensures var date := s.runs[s.active[k].event].date;
      && id == Dated(dn, date) && Next(t, s, Visit(k, dn)).runs[id] == DagRun(dn, date, RunQueued)
      && AllUpstreamsSucceeded(t, s, dn, date)
      && |set q | q in s.runs && s.runs[q].state == RunQueued| < t.queueLimit
      && forall q :: q in s.runs ==> !(s.runs[q].dag == dn && s.runs[q].date == date)
  {
    FiresWrittenOut(t, s, dn, s.runs[s.active[k].event].date);
    assert QueuedRuns(s) == set q | q in s.runs && s.runs[q].state == RunQueued;
  }

  /** The steps by which events are delivered, in any interleaving and cut short anywhere. */
  predicate Delivers(step: Step) {
    step.Begin? || step.Visit? || step.Finish? || step.Abort? || step.DropOrphan? || step.Crash?
  }

  lemma StepKeepsQueueLimit(t: Topology, s: System, step: Step)
    requires Delivers(step) && |QueuedRuns(s)| <= t.queueLimit
    ensures |QueuedRuns(Next(t, s, step))| <= t.queueLimit
  {
    var u := Next(t, s, step);
    if step.Visit? && u.runs != s.runs {
      var id := Dated(step.dn, s.runs[s.active[step.k].event].date);
      assert QueuedRuns(u) == QueuedRuns(s) + {id};
    } else {
      assert QueuedRuns(u) == QueuedRuns(s);
    }
  }

  /** However events are delivered, they never take the queue past its limit. */
  lemma {:induction false} DeliveriesKeepQueueLimit(t: Topology, s: System, steps: seq<Step>)
    requires |set q | q in s.runs && s.runs[q].state == RunQueued| <= t.queueLimit
    requires forall i :: 0 <= i < |steps| ==> Delivers(steps[i])
    ensures var u := Run(t, s, steps); |set q | q in u.runs && u.runs[q].state == RunQueued| <= t.queueLimit
    decreases |steps|
  {
    if |steps| > 0 {
      var u := Next(t, s, steps[0]);
      assert QueuedRuns(s) == set q | q in s.runs && s.runs[q].state == RunQueued;
      StepKeepsQueueLimit(t, s, steps[0]);
      assert QueuedRuns(u) == set q | q in u.runs && u.runs[q].state == RunQueued;
      DeliveriesKeepQueueLimit(t, u, steps[1..]);
    }
  }

  /**
   At every reachable state: if all upstreams of a live downstream succeeded for a
   date, its run for that date exists or an unconsumed event of one of those runs
   remains; and no DAG ever has two runs for one date.
   */
  lemma NoTriggerLostOrDoubled(t: Topology, steps: seq<Step>, dn: string, date: int)
    requires Orderly(t, Start(), steps) && dn in t.ups && t.ups[dn] != {}
    ensures var s := Run(t, Start(), steps);
      AllUpstreamsSucceeded(t, s, dn, date) ==>
        || (exists id :: id in s.runs && s.runs[id].dag == dn && s.runs[id].date == date)
        || exists id :: id in s.pending && id in s.runs && s.runs[id].dag in t.ups[dn] && s.runs[id].date == date
    ensures var s := Run(t, Start(), steps);
      forall a, b :: a in s.runs && b in s.runs && s.runs[a].dag == s.runs[b].dag && s.runs[a].date == s.runs[b].date
        ==> a == b
  {
    RunKeepsInv(t, Start(), steps);
    var s := Run(t, Start(), steps);
    FiresWrittenOut(t, s, dn, date);
    if Owed(t, s, dn, date) {
      assert Promised(t, s, dn, date);
      var id :| id in s.runs && s.runs[id].dag in t.ups[dn] && s.runs[id].date == date && Promises(s, id, dn);
    }
  }

  lemma {:induction false} RunAppend(t: Topology, s: System, a: seq<Step>, b: seq<Step>)
    ensures Run(t, s, a + b) == Run(t, Run(t, s, a), b)
    decreases |a|
  {
    if |a| == 0 {
      assert a + b == b;
    } else {
      assert (a + b)[0] == a[0] && (a + b)[1..] == a[1..] + b;
      RunAppend(t, Next(t, s, a[0]), a[1..], b);
    }
  }

  lemma RunThree(t: Topology, s: System, a: Step, b: Step, c: Step)
    ensures Run(t, s, [a, b, c]) == Next(t, Next(t, Next(t, s, a), b), c)
  {
    var s1 := Next(t, s, a);
    var s2 := Next(t, s1, b);
    assert [a, b, c][1..] == [b, c] && [b, c][1..] == [c] && [c][1..] == [];
    assert Run(t, s2, [c]) == Run(t, Next(t, s2, c), []);
    assert Run(t, s1, [b, c]) == Run(t, s2, [c]);
  }

  lemma DeliverFrom(t: Topology, s: System, id: RunId, dn: string, date: int) returns (more: seq<Step>)
    requires OneRunEach(s) && Owed(t, s, dn, date) && |QueuedRuns(s)| < t.queueLimit
    requires id in s.pending && id in s.runs && s.runs[id].dag in t.ups[dn] && s.runs[id].date == date
    ensures Exists(Run(t, s, more), dn, date)
  {
    SuccessOfUpstream(t, s, dn, date, id);
    var s1 := Next(t, s, Crash);
    var s2 := Next(t, s1, Begin(0, id));
    assert s2 == s.(active := map[0 := Delivery(id, Downs(t, s.runs[id].dag), false, false)]);
    assert Fires(t, s2, dn, date) by {
      forall up | up in t.ups[dn]
        ensures Succeeded(s2, up, date)
      {
        assert Succeeded(s, up, date);
      }
    }
    DeliverNow(t, s2, id, dn, date);
    RunThree(t, s, Crash, Begin(0, id), Visit(0, dn));
    more := [Crash, Begin(0, id), Visit(0, dn)];
  }

  /** What is owed can be delivered as soon as the queue has room, even after a crash. */
  lemma OwedIsDeliverable(t: Topology, steps: seq<Step>, dn: string, date: int)
    requires Orderly(t, Start(), steps) && Owed(t, Run(t, Start(), steps), dn, date)
    requires |QueuedRuns(Run(t, Start(), steps))| < t.queueLimit
    ensures exists more :: Exists(Run(t, Start(), steps + more), dn, date)
  {
    RunKeepsInv(t, Start(), steps);
    var s := Run(t, Start(), steps);
    assert Promised(t, s, dn, date);
    var id :| id in s.runs && s.runs[id].dag in t.ups[dn] && s.runs[id].date == date && Promises(s, id, dn);
    var more := DeliverFrom(t, s, id, dn, date);
    RunAppend(t, Start(), steps, more);
  }

  lemma DeliverNow(t: Topology, s: System, id: RunId, dn: string, date: int)
    requires OneRunEach(s) && id in s.runs && s.runs[id].date == date
    requires 0 in s.active && s.active[0].event == id && dn in s.active[0].todo
    requires Fires(t, s, dn, date) && |QueuedRuns(s)| < t.queueLimit
    ensures Exists(Next(t, s, Visit(0, dn)), dn, date)
  {
    var c := CreateBounded(t, s, Dated(dn, date), dn, date);
    var u := Next(t, s, Visit(0, dn));
    if c.Inserted? {
      RunExists(u, Dated(dn, date));
    } else if Dated(dn, date) in s.runs {
      RunExists(u, Dated(dn, date));
    } else {
      StillExists(s, u, dn, date);
    }
  }

  // ---- why the proviso is there ----

  function TwoDags(): Topology {
    Topology(map["d" := {"u"}], {"d", "u"}, {"d", "u"}, 10)
  }

  const UP := Dated("u", 0)

  function DeliveryUnderWay(): seq<Step> {
    [NewRun(UP, "u", 0), Succeed(UP), Begin(0, UP)]
  }

  function FailAndVisit(): seq<Step> {
    [Move(UP, RunFailed), Visit(0, "d"), Succeed(UP)]
  }

  lemma UnderWayShape()
    ensures Run(TwoDags(), Start(), DeliveryUnderWay()) ==
      System(map[UP := DagRun("u", 0, RunSuccess)], {UP}, map[0 := Delivery(UP, {"d"}, false, false)])
  {
    var t := TwoDags();
    var s1 := Next(t, Start(), NewRun(UP, "u", 0));
    assert QueuedRuns(Start()) == {} && !Exists(Start(), "u", 0);
    assert s1.runs == map[UP := DagRun("u", 0, RunQueued)];
    assert Downs(t, "u") == {"d"};
    RunThree(t, Start(), NewRun(UP, "u", 0), Succeed(UP), Begin(0, UP));
  }

  lemma VisitFindsFailure(t: Topology, s: System)
    requires t == TwoDags()
    requires s == System(map[UP := DagRun("u", 0, RunSuccess)], {UP}, map[0 := Delivery(UP, {"d"}, false, false)])
    ensures Run(t, s, FailAndVisit()) ==
      System(map[UP := DagRun("u", 0, RunSuccess)], {UP}, map[0 := Delivery(UP, {}, false, false)])
  {
    var s1 := Next(t, s, Move(UP, RunFailed));
    assert s1.runs == map[UP := DagRun("u", 0, RunFailed)];
    assert "u" in t.ups["d"] && !Succeeded(s1, "u", 0);
    assert !Fires(t, s1, "d", 0);
    var s2 := Next(t, s1, Visit(0, "d"));
    assert s2.active[0].todo == {"d"} - {"d"} == {};
    RunThree(t, s, Move(UP, RunFailed), Visit(0, "d"), Succeed(UP));
  }

  lemma FinishConsumesBoth(t: Topology, s: System)
    requires t == TwoDags()
    requires s == System(map[UP := DagRun("u", 0, RunSuccess)], {UP}, map[0 := Delivery(UP, {}, false, false)])
    ensures var u := Run(t, s, [Finish(0)]); Owed(t, u, "d", 0) && u.pending == {}
  {
    assert [Finish(0)][1..] == [];
    var u := Next(t, s, Finish(0));
    assert Run(t, s, [Finish(0)]) == Run(t, u, []) == u;
    assert u.runs == map[UP := DagRun("u", 0, RunSuccess)];
    assert Succeeded(u, "u", 0) by {
      assert UP in u.runs;
    }
    assert Fires(t, u, "d", 0);
  }

  /**
   The proviso is needed: an operator who marks a run failed and successful again while
   its event is being delivered has the new success consumed with the old one.
   */
  lemma RearmingLosesTheTrigger()
    ensures var s := Run(TwoDags(), Start(), (DeliveryUnderWay() + FailAndVisit()) + [Finish(0)]);
      Owed(TwoDags(), s, "d", 0) && s.pending == {}
  {
    var t := TwoDags();
    UnderWayShape();
    var s3 := Run(t, Start(), DeliveryUnderWay());
    RunAppend(t, Start(), DeliveryUnderWay(), FailAndVisit());
    VisitFindsFailure(t, s3);
    RunAppend(t, Start(), DeliveryUnderWay() + FailAndVisit(), [Finish(0)]);
    FinishConsumesBoth(t, Run(t, s3, FailAndVisit()));
  }
}
