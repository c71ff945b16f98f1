/**
 Delivering pending dependency events, as the scheduler loops do it
 (internal/scheduler/scheduler.go, processPendingDependencyEvents and triggerDownstreams).
 Each method's effect is a sequence of the delivery steps of FanIn.
 */
module Outbox {
  import opened TaskModel
  import opened FanIn
  import opened Sets

  datatype Insert = Done | Duplicate | Full | Archived

  /** The steps a delivery is made of. */
  predicate IsDelivery(step: Step) {
    step.Begin? || step.Visit? || step.Finish? || step.DropOrphan?
  }

  ghost predicate AllDelivery(steps: seq<Step>) {
    forall i :: 0 <= i < |steps| ==> IsDelivery(steps[i])
  }

  lemma RunOne(t: Topology, s: System, a: Step)
    ensures Run(t, s, [a]) == Next(t, s, a)
  {
    assert [a][1..] == [];
    assert Run(t, Next(t, s, a), []) == Next(t, s, a);
  }

  lemma RunSnoc(t: Topology, s: System, steps: seq<Step>, a: Step)
    ensures Run(t, s, steps + [a]) == Next(t, Run(t, s, steps), a)
  {
    RunAppend(t, s, steps, [a]);
    RunOne(t, Run(t, s, steps), a);
  }

  /** A visit keeps runs unique, changes no existing run, and only ever lengthens the queue. */
  lemma VisitQueue(t: Topology, s: System, k: nat, dn: string)
    requires OneRunEach(s)
    ensures var u := Next(t, s, Visit(k, dn));
      && OneRunEach(u)
      && (forall id :: id in s.runs ==> id in u.runs && u.runs[id] == s.runs[id])
      && QueuedRuns(s) <= QueuedRuns(u) && |QueuedRuns(s)| <= |QueuedRuns(u)|
  {
    var u := Next(t, s, Visit(k, dn));
    forall id | id in s.runs
      ensures id in u.runs && u.runs[id] == s.runs[id]
    {
    }
    SubsetSize(QueuedRuns(s), QueuedRuns(u));
  }

  class DependencyTrigger {
    const t: Topology
    var runs: map<RunId, DagRun>
    var pending: set<RunId>
    /** The passes under way, which the program keeps only on its stacks. */
    ghost var active: map<nat, Delivery>

    ghost function State(): System
      reads this
    {
      System(runs, pending, active)
    }

    constructor (topology: Topology, s: System)
      ensures t == topology && State() == s
    {
      t, runs, pending, active := topology, s.runs, s.pending, s.active;
    }

    method CreateDagRunBounded(id: RunId, dag: string, date: int) returns (r: Insert)
      modifies this`runs
      ensures match CreateBounded(t, old(State()), id, dag, date)
        case NotFound => r.Archived? && runs == old(runs)
        case QueueFull => r.Full? && runs == old(runs)
        case AlreadyExists => r.Duplicate? && runs == old(runs)
        case Inserted(s) => r.Done? && State() == s
      ensures r.Archived? <==> dag !in t.registered
      ensures r.Full? <==> dag in t.registered && |set q | q in old(runs) && old(runs)[q].state == RunQueued| >= t.queueLimit
      ensures r.Done? ==> id !in old(runs) && runs == old(runs)[id := DagRun(dag, date, RunQueued)]
                          && forall q :: q in old(runs) ==> !(old(runs)[q].dag == dag && old(runs)[q].date == date)
    {
      assert QueuedIn(runs) == set q | q in runs && runs[q].state == RunQueued;
      if dag !in t.registered {
        return Archived;
      }
      if |QueuedIn(runs)| >= t.queueLimit {
        return Full;
      }
      if id in runs || exists q :: q in runs && runs[q].dag == dag && runs[q].date == date {
        return Duplicate;
      }
      runs := runs[id := DagRun(dag, date, RunQueued)];
      r := Done;
    }

    /** The loop over upstreams; it stops at the first that is missing or not successful. */
    method AllUpstreamsOK(ups: set<string>, date: int) returns (ok: bool)
      ensures ok <==> forall up :: up in ups ==> up in t.registered && Succeeded(State(), up, date)
    {
      var todo := ups;
      while todo != {}
        invariant todo <= ups
        invariant forall up :: up in ups && up !in todo ==> up in t.registered && Succeeded(State(), up, date)
        decreases todo
      {
        var up :| up in todo;
        if up !in t.registered || !(exists q :: q in runs && runs[q].dag == up && runs[q].date == date
                                         && runs[q].state == RunSuccess) {
          return false;
        }
        assert Succeeded(State(), up, date);
        todo := todo - {up};
      }
      ok := true;
    }

    method TriggerDownstreams(ghost k: nat, upstream: RunId) returns (deferred: bool, ghost steps: seq<Step>)
      requires upstream in runs && OneRunEach(State())
      requires k in active && active[k] == Delivery(upstream, Downs(t, runs[upstream].dag), false, false)
      modifies this`runs, this`active
      ensures State() == Run(t, old(State()), steps) && AllDelivery(steps)
      ensures OneRunEach(State()) && OnlyDelivers(old(State()), State())
      ensures active == old(active)[k := Delivery(upstream, {}, deferred, false)]
      ensures deferred ==> |QueuedRuns(State())| >= t.queueLimit
    {
      deferred, steps := false, [];
      var date := runs[upstream].date;
      var todo := Downs(t, runs[upstream].dag);
      while todo != {}
        invariant State() == Run(t, old(State()), steps) && AllDelivery(steps)
        invariant OneRunEach(State()) && OnlyDelivers(old(State()), State())
        invariant todo <= Downs(t, old(runs)[upstream].dag)
        invariant active == old(active)[k := Delivery(upstream, todo, deferred, false)]
        invariant deferred ==> |QueuedRuns(State())| >= t.queueLimit
        decreases todo
      {
        var dn :| dn in todo;
        ghost var before := State();
        RunSnoc(t, old(State()), steps, Visit(k, dn));
        deferred := VisitOne(k, upstream, date, todo, dn, deferred);
        DeliversThrough(old(State()), before, State());
        todo := todo - {dn};
        steps := steps + [Visit(k, dn)];
      }
    }

    method VisitOne(ghost k: nat, upstream: RunId, date: int, ghost todo: set<string>, dn: string, deferredBefore: bool)
      returns (deferred: bool)
      requires OneRunEach(State()) && upstream in runs && runs[upstream].date == date
      requires k in active && active[k] == Delivery(upstream, todo, deferredBefore, false)
      requires dn in todo && dn in t.ups
      requires deferredBefore ==> |QueuedRuns(State())| >= t.queueLimit
      modifies this`runs, this`active
      ensures State() == Next(t, old(State()), Visit(k, dn))
      ensures active == old(active)[k := Delivery(upstream, todo - {dn}, deferred, false)]
      ensures OneRunEach(State()) && OnlyDelivers(old(State()), State())
      ensures deferred ==> |QueuedRuns(State())| >= t.queueLimit
    {
      VisitQueue(t, State(), k, dn);
      deferred := deferredBefore;
      var allOK := AllUpstreamsOK(t.ups[dn], date);
      if allOK && dn in t.registered && dn in t.tasked {
        var r := CreateDagRunBounded(Dated(dn, date), dn, date);
        if r.Full? {
          deferred := true;
        }
      }
      active := active[k := Delivery(upstream, todo - {dn}, deferred, false)];
    }

    /**
     Replays the listed events in order. If the queue still has room at the end, every listed
     event of a finished run has been consumed: nothing was deferred.
     */
    method ProcessPendingDependencyEvents(events: seq<RunId>) returns (ghost steps: seq<Step>)
      requires OneRunEach(State()) && active == map[]
      modifies this
      ensures State() == Run(t, old(State()), steps) && AllDelivery(steps) && active == map[]
      ensures |QueuedRuns(State())| < t.queueLimit ==> AllHandled(State(), events, |events|)
    {
      steps := [];
      for i := 0 to |events|
        invariant State() == Run(t, old(State()), steps) && AllDelivery(steps)
        invariant OneRunEach(State()) && active == map[]
        invariant |QueuedRuns(State())| < t.queueLimit ==> AllHandled(State(), events, i)
      {
        ghost var before := State();
        ghost var more := Deliver(events[i]);
        RunAppend(t, old(State()), steps, more);
        steps := steps + more;
        OneMoreHandled(before, State(), events, i);
      }
    }

    method Deliver(e: RunId) returns (ghost steps: seq<Step>)
      requires OneRunEach(State()) && active == map[]
      modifies this
      ensures State() == Run(t, old(State()), steps) && AllDelivery(steps)
      ensures OneRunEach(State()) && active == map[]
      ensures |QueuedRuns(State())| < t.queueLimit ==> Handled(State(), e)
      ensures OnlyDelivers(old(State()), State())
    {
      steps := [];
      if e !in pending {
        return;
      }
      if e !in runs {
        pending := pending - {e};
        RunOne(t, old(State()), DropOrphan(e));
        return [DropOrphan(e)];
      }
      if runs[e].state == RunSuccess {
        steps := DeliverSuccess(e);
      } else if runs[e].state.IsTerminal() {
        steps := ConsumeObsolete(e);
      }
    }

    method ConsumeObsolete(e: RunId) returns (ghost steps: seq<Step>)
      requires active == map[] && e in pending && e in runs
      requires runs[e].state.IsTerminal() && runs[e].state != RunSuccess
      modifies this`pending
      ensures State() == Run(t, old(State()), steps) && AllDelivery(steps)
      ensures pending == old(pending) - {e}
    {
      pending := pending - {e};
      RunOne(t, old(State()), Begin(0, e));
      RunSnoc(t, old(State()), [Begin(0, e)], Finish(0));
      assert map[0 := Delivery(e, {}, false, true)] - {0} == map[];
      steps := [Begin(0, e)] + [Finish(0)];
    }

    method DeliverSuccess(e: RunId) returns (ghost steps: seq<Step>)
      requires OneRunEach(State()) && active == map[] && e in pending && e in runs && runs[e].state == RunSuccess
      modifies this
      ensures State() == Run(t, old(State()), steps) && AllDelivery(steps)
      ensures OneRunEach(State()) && active == map[]
      ensures |QueuedRuns(State())| < t.queueLimit ==> e !in pending
      ensures OnlyDelivers(old(State()), State())
    {
      active := map[0 := Delivery(e, Downs(t, runs[e].dag), false, false)];
      ghost var begun := State();
      assert begun == Next(t, old(State()), Begin(0, e));
      var deferred;
      ghost var visits;
      deferred, visits := TriggerDownstreams(0, e);
      DeliversThrough(old(State()), begun, State());
      ThreeParts(t, old(State()), Begin(0, e), visits, Finish(0));
      FinishDelivery(e, deferred, old(State()));
      steps := ([Begin(0, e)] + visits) + [Finish(0)];
    }

    /** The event is consumed unless some downstream was deferred. */
    method FinishDelivery(e: RunId, deferred: bool, ghost start: System)
      requires active == map[0 := Delivery(e, {}, deferred, false)]
      requires OneRunEach(State()) && OnlyDelivers(start, State())
      modifies this`pending, this`active
      ensures State() == Next(t, old(State()), Finish(0))
      ensures runs == old(runs) && active == map[] && (!deferred ==> e !in pending)
      ensures OneRunEach(State()) && OnlyDelivers(start, State()) && QueuedRuns(State()) == QueuedRuns(old(State()))
    {
      FinishOne(t, State(), e, deferred);
      if !deferred {
        pending := pending - {e};
      }
      active := map[];
      assert QueuedRuns(State()) == QueuedRuns(old(State()));
      DeliversThrough(start, old(State()), State());
    }
  }

  lemma FinishOne(t: Topology, s: System, e: RunId, deferred: bool)
    requires s.active == map[0 := Delivery(e, {}, deferred, false)]
    ensures Next(t, s, Finish(0)) == s.(pending := if deferred then s.pending else s.pending - {e}, active := map[])
  {
    assert s.active - {0} == map[];
  }

  lemma ThreeParts(t: Topology, s: System, a: Step, mid: seq<Step>, b: Step)
    ensures Run(t, s, ([a] + mid) + [b]) == Next(t, Run(t, Next(t, s, a), mid), b)
  {
    RunSnoc(t, s, [a] + mid, b);
    RunAppend(t, s, [a], mid);
    RunOne(t, s, a);
  }

  /** The event is consumed, or its run is not finished (again). */
  ghost predicate Handled(s: System, e: RunId) {
    e in s.pending ==> e in s.runs && !s.runs[e].state.IsTerminal()
  }

  /** Existing runs unchanged, no event armed, the queue no shorter. */
  ghost predicate OnlyDelivers(s: System, u: System) {
    && (forall id :: id in s.runs ==> id in u.runs && u.runs[id] == s.runs[id])
    && u.pending <= s.pending
    && |QueuedRuns(s)| <= |QueuedRuns(u)|
  }

  lemma DeliversThrough(s: System, u: System, v: System)
    requires OnlyDelivers(s, u) && OnlyDelivers(u, v)
    ensures OnlyDelivers(s, v)
  {
  }

  ghost predicate AllHandled(s: System, events: seq<RunId>, n: nat)
    requires n <= |events|
  {
    forall j :: 0 <= j < n ==> Handled(s, events[j])
  }

  lemma OneMoreHandled(s: System, u: System, events: seq<RunId>, n: nat)
    requires n < |events| && OnlyDelivers(s, u)
    ensures AllHandled(s, events, n) && Handled(u, events[n]) ==> AllHandled(u, events, n + 1)
  {
  }
}
