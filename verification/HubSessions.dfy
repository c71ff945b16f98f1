/**
 The worker hub's session and assignment tables (internal/workerhub/hub.go).
 Every operation below is one critical section under the hub's mutex; `sweep` is
 two of them, with store lookups in the gap. Any interleaving of the program is a
 sequence of these operations.
 */
module HubSessions {
  import opened Sets

  datatype Phase = PhaseUnknown | PhaseRunning | PhaseExited

  datatype Session = Session(worker: string, group: string, draining: bool, active: int)

  datatype Ref = Ref(worker: string, phase: Phase, exitCode: int, lost: bool)

  /**
   `sessions` maps a worker to its live stream, `all` holds every stream ever opened,
   and `open` those whose done channel has not been closed.
   */
  datatype Hub = Hub(sessions: map<string, nat>, all: map<nat, Session>, open: set<nat>, refs: map<string, Ref>)

  function Empty(): Hub {
    Hub(map[], map[], {}, map[])
  }

  datatype Op =
    | Hello(id: nat, worker: string, group: string, draining: bool)
    | AdoptOrphan(worker: string, ref: string)
    | SweepBegin(stale: set<string>, expired: set<string>)
    | SweepEnd(silent: set<string>)
    | DropSession(id: nat)
    | Disconnect(worker: string)
    | SetDraining(worker: string, draining: bool)
    | Launch(ref: string, group: string, worker: string, queueFull: bool)
    | TaskEvent(worker: string, ref: string, phase: Phase, exitCode: int, launchError: bool)
    | Forget(ref: string)

  function Bump(h: Hub, worker: string, delta: int): map<nat, Session> {
    if worker in h.sessions && h.sessions[worker] in h.all then
      var id := h.sessions[worker];
      h.all[id := h.all[id].(active := h.all[id].active + delta)]
    else h.all
  }

  predicate RunsOn(r: Ref, worker: string) {
    r.worker == worker && r.phase == PhaseRunning
  }

  function RunningOn(h: Hub, worker: string): set<string> {
    set r | r in h.refs && RunsOn(h.refs[r], worker)
  }

  /** A launch may go to this worker: right group, not draining, and no eligible worker is less loaded. */
  predicate Eligible(h: Hub, group: string, worker: string) {
    worker in h.sessions && h.sessions[worker] in h.all
    && h.all[h.sessions[worker]].group == group && !h.all[h.sessions[worker]].draining
  }

  predicate LeastLoaded(h: Hub, group: string, worker: string) {
    Eligible(h, group, worker)
    && forall w :: w in h.sessions && Eligible(h, group, w) ==>
         h.all[h.sessions[worker]].active <= h.all[h.sessions[w]].active
  }

  /** The stream whose done channel the operation closes. */
  function Closes(h: Hub, op: Op): set<nat> {
    match op
    case Hello(id, worker, _, _) => if id !in h.all && worker in h.sessions then {h.sessions[worker]} else {}
    case SweepBegin(stale, _) => set w | w in stale && w in h.sessions :: h.sessions[w]
    case DropSession(id) =>
      if id in h.all && h.all[id].worker in h.sessions && h.sessions[h.all[id].worker] == id then {id} else {}
    case Disconnect(worker) => if worker in h.sessions then {h.sessions[worker]} else {}
    case _ => {}
  }

  /** A stale `silent` verdict spares a worker that reconnected meanwhile. */
  function LetGo(r: Ref, silent: set<string>, sessions: map<string, nat>): Ref {
    if r.phase == PhaseRunning && r.worker in silent && r.worker !in sessions then r.(lost := true) else r
  }

  function Released(h: Hub, silent: set<string>): map<string, Ref> {
    map r | r in h.refs :: LetGo(h.refs[r], silent, h.sessions)
  }

  function TakenBack(r: Ref, worker: string): Ref {
    if RunsOn(r, worker) then r.(lost := false) else r
  }

  function Reclaimed(h: Hub, worker: string): map<string, Ref> {
    map r | r in h.refs :: TakenBack(h.refs[r], worker)
  }

  function AfterEvent(r: Ref, phase: Phase, exitCode: int, launchError: bool): Ref {
    if launchError then r.(phase := PhaseExited, exitCode := 127)
    else if phase == PhaseExited then r.(phase := PhaseExited, exitCode := exitCode)
    else r.(phase := phase)
  }

  /** The effect of one operation; one that does not apply changes nothing. */
  function Apply(h: Hub, op: Op): Hub {
    match op
    case Hello(id, worker, group, draining) =>
      if id in h.all then h
      else Hub(h.sessions[worker := id],
               h.all[id := Session(worker, group, draining, |RunningOn(h, worker)|)],
               h.open - Closes(h, op) + {id},
               Reclaimed(h, worker))
    case AdoptOrphan(worker, ref) =>
      if ref in h.refs then h
      else h.(refs := h.refs[ref := Ref(worker, PhaseRunning, 0, false)], all := Bump(h, worker, 1))
    case SweepBegin(stale, expired) =>
      h.(sessions := h.sessions - stale,
         open := h.open - Closes(h, op),
         refs := map r | r in h.refs && !(r in expired && h.refs[r].phase != PhaseRunning) :: h.refs[r])
    case SweepEnd(silent) =>
      h.(refs := Released(h, silent))
    case DropSession(id) =>
      if Closes(h, op) == {} then h
      else h.(sessions := h.sessions - {h.all[id].worker}, open := h.open - {id})
    case Disconnect(worker) =>
      h.(sessions := h.sessions - {worker}, open := h.open - Closes(h, op))
    case SetDraining(worker, draining) =>
      if worker in h.sessions && h.sessions[worker] in h.all then
        var id := h.sessions[worker];
        h.(all := h.all[id := h.all[id].(draining := draining)])
      else h
    case Launch(ref, group, worker, queueFull) =>
      if ref in h.refs && !h.refs[ref].lost && h.refs[ref].phase != PhaseUnknown then h
      else if !LeastLoaded(h, group, worker) then h
      else if queueFull then h.(refs := h.refs - {ref})
      else h.(refs := h.refs[ref := Ref(worker, PhaseRunning, 0, false)], all := Bump(h, worker, 1))
    case TaskEvent(worker, ref, phase, exitCode, launchError) =>
      if ref !in h.refs || h.refs[ref].worker != worker then h
      else
        var leaves := phase == PhaseExited && h.refs[ref].phase != PhaseExited
                      && worker in h.sessions && h.sessions[worker] in h.all && h.all[h.sessions[worker]].active > 0;
        h.(refs := h.refs[ref := AfterEvent(h.refs[ref], phase, exitCode, launchError)],
           all := if leaves then Bump(h, worker, -1) else h.all)
    case Forget(ref) =>
      if ref in h.refs && h.refs[ref].phase != PhaseRunning then h.(refs := h.refs - {ref}) else h
  }

  function Run(h: Hub, ops: seq<Op>): Hub
    decreases |ops|
  {
    if |ops| == 0 then h else Run(Apply(h, ops[0]), ops[1..])
  }

  // ---- sessions ----

  ghost predicate InTable(h: Hub, id: nat)
    requires id in h.all
  {
    h.all[id].worker in h.sessions && h.sessions[h.all[id].worker] == id
  }

  /** A stream is in the table exactly while its done channel is open. */
  ghost predicate TableIsOpen(h: Hub) {
    && (forall w :: w in h.sessions ==> h.sessions[w] in h.all && h.all[h.sessions[w]].worker == w)
    && h.open <= h.all.Keys
    && (forall id :: id in h.all ==> (id in h.open <==> InTable(h, id)))
  }

  lemma HelloKeepsTable(h: Hub, op: Op)
    requires TableIsOpen(h) && op.Hello?
    ensures TableIsOpen(Apply(h, op)) && Closes(h, op) <= h.open
  {
    var t := Apply(h, op);
    forall id | id in t.all
      ensures id in t.open <==> InTable(t, id)
    {
      if id in h.all {
        assert id in h.open <==> InTable(h, id);
      }
    }
  }

  lemma RemovalKeepsTable(h: Hub, op: Op)
    requires TableIsOpen(h) && (op.SweepBegin? || op.DropSession? || op.Disconnect?)
    ensures TableIsOpen(Apply(h, op)) && Closes(h, op) <= h.open
  {
    var t := Apply(h, op);
    forall id | id in t.all
      ensures id in t.open <==> InTable(t, id)
    {
      assert id in h.open <==> InTable(h, id);
    }
  }

  /** Every operation keeps the table, and never closes a done channel that is not open. */
  lemma ApplyKeepsTable(h: Hub, op: Op)
    requires TableIsOpen(h)
    ensures TableIsOpen(Apply(h, op)) && Closes(h, op) <= h.open
  {
    if op.Hello? {
      HelloKeepsTable(h, op);
    } else if op.SweepBegin? || op.DropSession? || op.Disconnect? {
      RemovalKeepsTable(h, op);
    } else {
      var t := Apply(h, op);
      forall id | id in t.all
        ensures id in t.open <==> InTable(t, id)
      {
        assert id in h.open <==> InTable(h, id);
        assert t.all[id].worker == h.all[id].worker;
      }
    }
  }

  lemma {:induction false} RunKeepsTable(h: Hub, ops: seq<Op>)
    requires TableIsOpen(h)
    ensures TableIsOpen(Run(h, ops))
    decreases |ops|
  {
    if |ops| > 0 {
      ApplyKeepsTable(h, ops[0]);
      RunKeepsTable(Apply(h, ops[0]), ops[1..]);
    }
  }

  /** How often a stream's done channel is closed over a run. */
  function Closings(h: Hub, ops: seq<Op>, id: nat): nat
    decreases |ops|
  {
    if |ops| == 0 then 0
    else (if id in Closes(h, ops[0]) then 1 else 0) + Closings(Apply(h, ops[0]), ops[1..], id)
  }

  /** A closed stream stays closed: nothing closes or reopens it. */
  lemma ClosedForGood(h: Hub, op: Op, id: nat)
    requires TableIsOpen(h)
    ensures TableIsOpen(Apply(h, op))
    ensures id in h.all ==> id in Apply(h, op).all
    ensures id in h.all && id !in h.open ==> id !in Closes(h, op) && id !in Apply(h, op).open
    ensures id in Closes(h, op) ==> id in h.all && id !in Apply(h, op).open
  {
    ApplyKeepsTable(h, op);
  }

  lemma {:induction false} ClosedAtMostOnceFrom(h: Hub, ops: seq<Op>, id: nat)
    requires TableIsOpen(h)
    ensures Closings(h, ops, id) <= 1
    ensures id in h.all && id !in h.open ==> Closings(h, ops, id) == 0
    decreases |ops|
  {
    if |ops| > 0 {
      ClosedForGood(h, ops[0], id);
      ClosedAtMostOnceFrom(Apply(h, ops[0]), ops[1..], id);
    }
  }

  /**
   In every interleaving a stream is in the table exactly while its done channel is
   open, and no done channel is closed twice.
   */
  lemma SessionsAreSound(ops: seq<Op>, id: nat)
    ensures TableIsOpen(Run(Empty(), ops))
    ensures Closings(Empty(), ops, id) <= 1
  {
    RunKeepsTable(Empty(), ops);
    ClosedAtMostOnceFrom(Empty(), ops, id);
  }

  // ---- released assignments ----

  /** A running assignment is marked lost only while its worker has no live stream. */
  ghost predicate LostMeansGone(h: Hub) {
    forall r :: r in h.refs && h.refs[r].lost && h.refs[r].phase == PhaseRunning ==> h.refs[r].worker !in h.sessions
  }

  /**
   The one event that can break it: a report of RUNNING for an assignment already
   recorded as exited or unknown, still marked lost, whose worker is back.
   */
  predicate Resurrects(h: Hub, op: Op) {
    && op.TaskEvent? && op.phase == PhaseRunning && !op.launchError
    && op.ref in h.refs && h.refs[op.ref].worker == op.worker
    && h.refs[op.ref].phase != PhaseRunning && h.refs[op.ref].lost && op.worker in h.sessions
  }

  lemma ApplyKeepsLost(h: Hub, op: Op)
    requires LostMeansGone(h)
    ensures LostMeansGone(Apply(h, op)) <==> !Resurrects(h, op)
  {
    var t := Apply(h, op);
    if Resurrects(h, op) {
      assert op.ref in t.refs && t.refs[op.ref].lost && t.refs[op.ref].phase == PhaseRunning;
    } else {
      forall r | r in t.refs && t.refs[r].lost && t.refs[r].phase == PhaseRunning
        ensures t.refs[r].worker !in t.sessions
      {
        if op.TaskEvent? && r == op.ref && r in h.refs {
          assert t.sessions == h.sessions;
        }
      }
    }
  }

  /** No operation of the run revives a finished, released assignment of a live worker. */
  ghost predicate Orderly(h: Hub, ops: seq<Op>)
    decreases |ops|
  {
    |ops| == 0 || (!Resurrects(h, ops[0]) && Orderly(Apply(h, ops[0]), ops[1..]))
  }

  /** What the scheduler is told when it probes: a lost assignment reads as unknown. */
  function Probe(h: Hub, ref: string, inBootGrace: bool): Phase {
    if ref !in h.refs then (if inBootGrace then PhaseRunning else PhaseUnknown)
    else if h.refs[ref].lost then PhaseUnknown
    else h.refs[ref].phase
  }

  lemma {:induction false} RunKeepsLost(h: Hub, ops: seq<Op>)
    requires LostMeansGone(h) && Orderly(h, ops)
    ensures LostMeansGone(Run(h, ops))
    decreases |ops|
  {
    if |ops| > 0 {
      ApplyKeepsLost(h, ops[0]);
      RunKeepsLost(Apply(h, ops[0]), ops[1..]);
    }
  }

  /** A tracked, running assignment is answered UNKNOWN only while its worker has no live stream. */
  lemma FailoverOnlyWithoutWorker(ops: seq<Op>, ref: string, inBootGrace: bool)
    requires Orderly(Empty(), ops)
    ensures var h := Run(Empty(), ops);
      ref in h.refs && h.refs[ref].phase == PhaseRunning && Probe(h, ref, inBootGrace) == PhaseUnknown ==>
        h.refs[ref].worker !in h.sessions
  {
    RunKeepsLost(Empty(), ops);
  }

  /** Only the second half of a sweep releases, and then only what has no live stream at that moment. */
  lemma OnlySweepReleases(h: Hub, op: Op, ref: string)
    requires ref in h.refs && !h.refs[ref].lost
    requires ref in Apply(h, op).refs && Apply(h, op).refs[ref].lost
    ensures op.SweepEnd? && h.refs[ref].worker in op.silent
    ensures h.refs[ref].phase == PhaseRunning && h.refs[ref].worker !in h.sessions
  {
  }

  /** And it releases all of that: the unlost running assignments of silent workers that have not come back. */
  lemma SweepReleasesExactly(h: Hub, silent: set<string>, ref: string)
    requires ref in h.refs
    ensures var t := Apply(h, SweepEnd(silent));
      && ref in t.refs
      && (t.refs[ref].lost <==>
            h.refs[ref].lost
            || (h.refs[ref].phase == PhaseRunning && h.refs[ref].worker in silent && h.refs[ref].worker !in h.sessions))
  {
  }

  /** A reconnecting worker gets every assignment it was still running back, and counts as loaded with them. */
  lemma ReconnectReclaims(h: Hub, id: nat, worker: string, group: string, draining: bool)
    requires id !in h.all
    ensures var t := Apply(h, Hello(id, worker, group, draining));
      && (forall ref :: ref in h.refs && h.refs[ref].worker == worker && h.refs[ref].phase == PhaseRunning ==>
            Probe(t, ref, false) == PhaseRunning && t.refs[ref].worker == worker)
      && worker in t.sessions && t.sessions[worker] == id && t.all[id].group == group && t.all[id].draining == draining
      && t.all[id].active == |set ref | ref in h.refs && h.refs[ref].worker == worker && h.refs[ref].phase == PhaseRunning|
  {
    assert RunningOn(h, worker)
        == set ref | ref in h.refs && h.refs[ref].worker == worker && h.refs[ref].phase == PhaseRunning;
  }

  /** While an assignment runs and is not released, only its own worker's report ends it; it is never dropped or moved. */
  lemma RunningStaysPut(h: Hub, op: Op, ref: string)
    requires ref in h.refs && h.refs[ref].phase == PhaseRunning && !h.refs[ref].lost
    ensures ref in Apply(h, op).refs && Apply(h, op).refs[ref].worker == h.refs[ref].worker
    ensures Apply(h, op).refs[ref].phase != PhaseRunning ==>
      op.TaskEvent? && op.ref == ref && op.worker == h.refs[ref].worker && (op.launchError || op.phase != PhaseRunning)
  {
  }

  /** The worker reports that the assignment is over with this code; one that could not be launched has code 127. */
  predicate ReportsExit(op: Op, worker: string, ref: string, code: int) {
    && op.TaskEvent? && op.worker == worker && op.ref == ref
    && (if op.launchError then code == 127 else op.phase == PhaseExited && op.exitCode == code)
  }

  lemma ExitAppears(h: Hub, op: Op, ref: string)
    requires ref in Apply(h, op).refs && Apply(h, op).refs[ref].phase == PhaseExited
    ensures
      var r := Apply(h, op).refs[ref];
      || (ref in h.refs && h.refs[ref].phase == PhaseExited && h.refs[ref].worker == r.worker && h.refs[ref].exitCode == r.exitCode)
      || ReportsExit(op, r.worker, ref, r.exitCode)
  {
  }

  lemma {:induction false} ExitWasReportedFrom(h: Hub, ops: seq<Op>, ref: string)
    requires ref in Run(h, ops).refs && Run(h, ops).refs[ref].phase == PhaseExited
    ensures
      var r := Run(h, ops).refs[ref];
      || (ref in h.refs && h.refs[ref].phase == PhaseExited && h.refs[ref].worker == r.worker && h.refs[ref].exitCode == r.exitCode)
      || exists k :: 0 <= k < |ops| && ReportsExit(ops[k], r.worker, ref, r.exitCode)
    decreases |ops|
  {
    if |ops| > 0 {
      var r := Run(h, ops).refs[ref];
      ExitWasReportedFrom(Apply(h, ops[0]), ops[1..], ref);
      if k :| 0 <= k < |ops[1..]| && ReportsExit(ops[1..][k], r.worker, ref, r.exitCode) {
        assert ReportsExit(ops[k + 1], r.worker, ref, r.exitCode);
      } else {
        ExitAppears(h, ops[0], ref);
      }
    }
  }

  /** In every interleaving, an assignment reads as exited with a code only after its worker reported exactly that. */
  lemma ExitWasReported(ops: seq<Op>, ref: string)
    requires ref in Run(Empty(), ops).refs && Run(Empty(), ops).refs[ref].phase == PhaseExited
    ensures
      var r := Run(Empty(), ops).refs[ref];
      exists k :: 0 <= k < |ops| && ReportsExit(ops[k], r.worker, ref, r.exitCode)
  {
    ExitWasReportedFrom(Empty(), ops, ref);
  }

  /** And every such report by the worker the assignment is with is taken at its word. */
  lemma ReportIsTaken(h: Hub, op: Op, code: int)
    requires op.TaskEvent? && op.ref in h.refs && op.worker == h.refs[op.ref].worker
    ensures var t := Apply(h, op);
      && op.ref in t.refs
      && (ReportsExit(op, op.worker, op.ref, code) ==>
            t.refs[op.ref] == h.refs[op.ref].(phase := PhaseExited, exitCode := code))
      && (!op.launchError && op.phase != PhaseExited ==> t.refs[op.ref] == h.refs[op.ref].(phase := op.phase))
  {
  }

  /** A worker set to draining is given nothing, whatever its load. */
  lemma DrainingGetsNothing(h: Hub, worker: string, ref: string, group: string, queueFull: bool)
    ensures var t := Apply(h, SetDraining(worker, true));
      Apply(t, Launch(ref, group, worker, queueFull)) == t
  {
  }

  /** A finished assignment goes when it is forgotten or its grace is over. */
  lemma FinishedIsForgotten(h: Hub, ref: string, stale: set<string>, expired: set<string>)
    requires ref in h.refs && h.refs[ref].phase != PhaseRunning
    ensures ref !in Apply(h, Forget(ref)).refs
    ensures ref in expired ==> ref !in Apply(h, SweepBegin(stale, expired)).refs
  {
  }

  // ---- the load counter that launches are routed by ----

  /** A live worker's counter is the number of assignments running on it. */
  ghost predicate LoadExact(h: Hub) {
    forall w :: w in h.sessions ==> LoadOf(h, w) == |RunningOn(h, w)|
  }

  function LoadOf(h: Hub, w: string): int
    requires w in h.sessions
  {
    if h.sessions[w] in h.all then h.all[h.sessions[w]].active else 0
  }

  /**
   The reports that make it drift, when their worker is live: RUNNING or EXITED about an
   assignment already reported gone, UNKNOWN about a running one, and a launch error on one
   in any other phase.
   */
  predicate Drifts(h: Hub, op: Op) {
    && op.TaskEvent? && op.ref in h.refs && h.refs[op.ref].worker == op.worker && op.worker in h.sessions
    && match h.refs[op.ref].phase
       case PhaseRunning => op.phase == PhaseUnknown || (op.launchError && op.phase == PhaseRunning)
       case PhaseUnknown =>
         (op.phase == PhaseExited && LoadOf(h, op.worker) > 0) || (op.phase == PhaseRunning && !op.launchError)
       case PhaseExited => op.phase == PhaseRunning && !op.launchError
  }

  lemma SameLoad(h: Hub, t: Hub, w: string)
    requires w in h.sessions && w in t.sessions && LoadOf(t, w) == LoadOf(h, w)
    requires RunningOn(t, w) == RunningOn(h, w)
    ensures LoadOf(t, w) == |RunningOn(t, w)| <==> LoadOf(h, w) == |RunningOn(h, w)|
  {
  }

  lemma HelloLoad(h: Hub, op: Op, w: string)
    requires TableIsOpen(h) && LoadExact(h) && op.Hello? && w in Apply(h, op).sessions
    ensures LoadOf(Apply(h, op), w) == |RunningOn(Apply(h, op), w)|
  {
    assert RunningOn(Apply(h, op), w) == RunningOn(h, w);
  }

  /** What one assignment more, or one less, does to the numbers of a worker and of the others. */
  lemma RunningAfter(h: Hub, ref: string, r: Ref, w: string)
    ensures var t := h.(refs := h.refs[ref := r]);
      |RunningOn(t, w)| == |RunningOn(h, w)| + (if RunsOn(r, w) then 1 else 0) - (if ref in RunningOn(h, w) then 1 else 0)
  {
    OthersStay(h, ref, r, w);
    SizeAtOneMember(RunningOn(h, w), RunningOn(h.(refs := h.refs[ref := r]), w), ref);
  }

  lemma OthersStay(h: Hub, ref: string, r: Ref, w: string)
    ensures var t := h.(refs := h.refs[ref := r]);
      && RunningOn(t, w) - {ref} == RunningOn(h, w) - {ref}
      && (ref in RunningOn(t, w) <==> RunsOn(r, w))
  {
  }

  lemma BumpLoad(h: Hub, worker: string, delta: int, w: string)
    requires TableIsOpen(h) && w in h.sessions
    ensures LoadOf(h.(all := Bump(h, worker, delta)), w) == LoadOf(h, w) + if w == worker then delta else 0
  {
    if worker in h.sessions && w != worker {
      assert h.all[h.sessions[w]].worker != h.all[h.sessions[worker]].worker;
    }
  }

  lemma AssignLoad(h: Hub, ref: string, worker: string, w: string)
    requires TableIsOpen(h) && LoadExact(h) && LostMeansGone(h) && w in h.sessions
    requires ref in h.refs ==> h.refs[ref].lost || h.refs[ref].phase == PhaseUnknown
    ensures
      var t := h.(refs := h.refs[ref := Ref(worker, PhaseRunning, 0, false)], all := Bump(h, worker, 1));
      LoadOf(t, w) == |RunningOn(t, w)|
  {
    RunningAfter(h, ref, Ref(worker, PhaseRunning, 0, false), w);
    BumpLoad(h, worker, 1, w);
    assert RunningOn(h.(refs := h.refs[ref := Ref(worker, PhaseRunning, 0, false)], all := Bump(h, worker, 1)), w)
        == RunningOn(h.(refs := h.refs[ref := Ref(worker, PhaseRunning, 0, false)]), w);
  }

  lemma EventLoad(h: Hub, op: Op, w: string)
    requires TableIsOpen(h) && LoadExact(h) && op.TaskEvent? && w in h.sessions
    ensures Apply(h, op).sessions == h.sessions
    ensures LoadOf(Apply(h, op), w) == |RunningOn(Apply(h, op), w)| <==> !(w == op.worker && Drifts(h, op))
  {
    if op.ref in h.refs && h.refs[op.ref].worker == op.worker {
      var r := AfterEvent(h.refs[op.ref], op.phase, op.exitCode, op.launchError);
      RunningAfter(h, op.ref, r, w);
      BumpLoad(h, op.worker, -1, w);
      assert RunningOn(Apply(h, op), w) == RunningOn(h.(refs := h.refs[op.ref := r]), w);
      if h.refs[op.ref].phase == PhaseRunning && w == op.worker {
        assert op.ref in RunningOn(h, w);
      }
    }
  }

  lemma RemovalLoad(h: Hub, ref: string, w: string)
    requires ref in h.refs && !RunsOn(h.refs[ref], w)
    ensures RunningOn(h.(refs := h.refs - {ref}), w) == RunningOn(h, w)
  {
  }

  lemma OtherOpsLoad(h: Hub, op: Op, w: string)
    requires TableIsOpen(h) && LoadExact(h) && LostMeansGone(h) && w in Apply(h, op).sessions
    requires !op.Hello? && !op.TaskEvent?
    ensures LoadOf(Apply(h, op), w) == |RunningOn(Apply(h, op), w)|
  {
    var t := Apply(h, op);
    assert w in h.sessions;
    match op
    case AdoptOrphan(worker, ref) => if ref !in h.refs { AssignLoad(h, ref, worker, w); }
    case Launch(ref, group, worker, queueFull) =>
      if ref !in h.refs {
        assert h.refs - {ref} == h.refs;
      }
      if t != h && !queueFull {
        AssignLoad(h, ref, worker, w);
      } else if t != h && ref in h.refs {
        RemovalLoad(h, ref, w);
      }
    case Forget(ref) => if t != h { RemovalLoad(h, ref, w); }
    case SweepBegin(_, _) => assert RunningOn(t, w) == RunningOn(h, w);
    case SweepEnd(_) => assert RunningOn(t, w) == RunningOn(h, w);
    case SetDraining(_, _) => assert RunningOn(t, w) == RunningOn(h, w);
    case _ =>
  }

  /** Every operation keeps the counters exact, except exactly those reports. */
  lemma ApplyKeepsLoad(h: Hub, op: Op)
    requires TableIsOpen(h) && LoadExact(h) && LostMeansGone(h)
    ensures LoadExact(Apply(h, op)) <==> !Drifts(h, op)
  {
    var t := Apply(h, op);
    if op.TaskEvent? {
      forall w | w in t.sessions
        ensures LoadOf(t, w) == |RunningOn(t, w)| <==> !(w == op.worker && Drifts(h, op))
      {
        EventLoad(h, op, w);
      }
    } else {
      forall w | w in t.sessions
        ensures LoadOf(t, w) == |RunningOn(t, w)|
      {
        if op.Hello? {
          HelloLoad(h, op, w);
        } else {
          OtherOpsLoad(h, op, w);
        }
      }
    }
  }

  ghost predicate Accountable(h: Hub, ops: seq<Op>)
    decreases |ops|
  {
    |ops| == 0 || (!Resurrects(h, ops[0]) && !Drifts(h, ops[0]) && Accountable(Apply(h, ops[0]), ops[1..]))
  }

  lemma {:induction false} RunKeepsLoad(h: Hub, ops: seq<Op>)
    requires TableIsOpen(h) && LoadExact(h) && LostMeansGone(h) && Accountable(h, ops)
    ensures TableIsOpen(Run(h, ops)) && LoadExact(Run(h, ops))
    decreases |ops|
  {
    if |ops| > 0 {
      ApplyKeepsTable(h, ops[0]);
      ApplyKeepsLoad(h, ops[0]);
      ApplyKeepsLost(h, ops[0]);
      RunKeepsLoad(Apply(h, ops[0]), ops[1..]);
    }
  }

  /**
   So as long as each assignment is reported over once and by its exit, a launch goes to a
   worker of the group on which no more assignments run than on any other that may take it.
   */
  lemma LaunchesAreBalanced(ops: seq<Op>, group: string, worker: string, other: string)
    requires Accountable(Empty(), ops)
    requires LeastLoaded(Run(Empty(), ops), group, worker) && Eligible(Run(Empty(), ops), group, other)
    ensures var h := Run(Empty(), ops);
      |set r | r in h.refs && h.refs[r].worker == worker && h.refs[r].phase == PhaseRunning|
      <= |set r | r in h.refs && h.refs[r].worker == other && h.refs[r].phase == PhaseRunning|
  {
    RunKeepsLoad(Empty(), ops);
    var h := Run(Empty(), ops);
    assert RunningOn(h, worker) == set r | r in h.refs && h.refs[r].worker == worker && h.refs[r].phase == PhaseRunning;
    assert RunningOn(h, other) == set r | r in h.refs && h.refs[r].worker == other && h.refs[r].phase == PhaseRunning;
  }

  /** A worker connects, is lost, and its assignment is released. */
  function LosingAWorker(): seq<Op> {
    [Hello(0, "w", "g", false), AdoptOrphan("w", "t"), DropSession(0), SweepEnd({"w"})]
  }

  /** Its exit is recorded, it reconnects, and an older RUNNING report comes in last. */
  function LateRunning(): seq<Op> {
    [TaskEvent("w", "t", PhaseExited, 0, false), Hello(1, "w", "g", false),
     TaskEvent("w", "t", PhaseRunning, 0, false)]
  }

  ghost predicate WorkerLost(h: Hub) {
    h.sessions == map[] && h.all.Keys == {0} && h.refs == map["t" := Ref("w", PhaseRunning, 0, true)]
  }

  lemma LosingReleases()
    ensures WorkerLost(Run(Empty(), LosingAWorker()))
  {
    var ops := LosingAWorker();
    var h1 := Apply(Empty(), ops[0]);
    var h2 := Apply(h1, ops[1]);
    assert h1.sessions == map["w" := 0] && h1.refs == map[];
    assert h2.refs == map["t" := Ref("w", PhaseRunning, 0, false)];
    assert ops == [ops[0], ops[1]] + [ops[2], ops[3]];
    RunTwo(Empty(), ops[0], ops[1]);
    RunTwo(h2, ops[2], ops[3]);
    RunAppend(Empty(), [ops[0], ops[1]], [ops[2], ops[3]]);
  }

  lemma LateRunningRevives(h: Hub)
    requires WorkerLost(h)
    ensures var t := Run(h, LateRunning());
      && "t" in t.refs && t.refs["t"].phase == PhaseRunning && t.refs["t"].lost && "w" in t.sessions
      && t.refs["t"].worker == "w"
  {
    var ops := LateRunning();
    var h1 := Apply(h, ops[0]);
    assert h1.refs == map["t" := Ref("w", PhaseExited, 0, true)];
    RunTwo(h1, ops[1], ops[2]);
    assert ops[1..] == [ops[1], ops[2]];
    assert Apply(h1, ops[1]).refs == h1.refs;
  }

  /** Without the proviso: release, exit, reconnect, late RUNNING, and a live worker's assignment probes UNKNOWN. */
  lemma LateRunningBreaksFailover()
    ensures var h := Run(Empty(), LosingAWorker() + LateRunning());
      && "t" in h.refs && h.refs["t"].phase == PhaseRunning && h.refs["t"].worker in h.sessions
      && Probe(h, "t", false) == PhaseUnknown
  {
    LosingReleases();
    LateRunningRevives(Run(Empty(), LosingAWorker()));
    RunAppend(Empty(), LosingAWorker(), LateRunning());
  }

  lemma RunTwo(h: Hub, a: Op, b: Op)
    ensures Run(h, [a, b]) == Apply(Apply(h, a), b)
  {
    assert [a, b][1..] == [b] && [b][1..] == [];
    assert Run(Apply(h, a), [b]) == Run(Apply(Apply(h, a), b), []);
  }

  lemma {:induction false} RunAppend(h: Hub, a: seq<Op>, b: seq<Op>)
    ensures Run(h, a + b) == Run(Run(h, a), b)
    decreases |a|
  {
    if |a| == 0 {
      assert a + b == b;
    } else {
      assert (a + b)[0] == a[0] && (a + b)[1..] == a[1..] + b;
      RunAppend(Apply(h, a[0]), a[1..], b);
    }
  }
}
