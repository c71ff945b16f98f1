/**
 The worker hub as the program keeps it: tables updated in place, one method per
 critical section (internal/workerhub/hub.go). Each method's effect is the matching
 operation of HubSessions, and each is safe: a done channel is only closed while open,
 which is what Go's close demands.
 */
module HubTable {
  import opened HubSessions

  datatype LaunchResult = Assigned(worker: string) | AlreadyRunning | NoWorker | QueueFull

  class WorkerHub {
    var sessions: map<string, nat>
    var all: map<nat, Session>
    var open: set<nat>
    var refs: map<string, Ref>
    var nextID: nat

    ghost function State(): Hub
      reads this
    {
      Hub(sessions, all, open, refs)
    }

    ghost predicate Valid()
      reads this
    {
      && TableIsOpen(State())
      && forall id :: id in all ==> id < nextID
    }

    constructor ()
      ensures Valid() && State() == Empty()
    {
      sessions, all, open, refs, nextID := map[], map[], {}, map[], 0;
    }

    /** close(s.done): closing a closed channel would panic. */
    method CloseDone(id: nat)
      requires id in open
      modifies this`open
      ensures open == old(open) - {id}
    {
      open := open - {id};
    }

    /** The Hello part of Session: replace an older stream, take running assignments back. */
    method Greet(worker: string, group: string, draining: bool, activeRefs: seq<string>)
      returns (id: nat, orphans: set<string>, toProbe: set<string>)
      requires Valid()
      modifies this
      ensures id !in old(all)
      ensures State() == Apply(old(State()), Hello(id, worker, group, draining))
      ensures Valid()
      ensures orphans == set r | r in activeRefs && r !in old(refs)
      ensures toProbe == old(RunningOn(State(), worker)) - set r | r in activeRefs
    {
      id := nextID;
      ghost var before, op := State(), Hello(id, worker, group, draining);
      ApplyKeepsTable(before, op);
      if worker in sessions {
        CloseDone(sessions[worker]);
      }
      orphans := set r | r in activeRefs && r !in refs;
      var mine := TakeBack(worker);
      toProbe := mine - set r | r in activeRefs;
      Register(Session(worker, group, draining, |mine|));
      assert refs == Reclaimed(before, worker);
    }

    method Register(s: Session)
      modifies this`sessions, this`all, this`open, this`nextID
      ensures sessions == old(sessions)[s.worker := old(nextID)]
      ensures all == old(all)[old(nextID) := s]
      ensures open == old(open) + {old(nextID)}
      ensures nextID == old(nextID) + 1
    {
      sessions := sessions[s.worker := nextID];
      all := all[nextID := s];
      open := open + {nextID};
      nextID := nextID + 1;
    }

    /** The worker's running assignments are no longer lost; returns which those are. */
    method TakeBack(worker: string) returns (mine: set<string>)
      modifies this`refs
      ensures refs == Reclaimed(old(State()), worker)
      ensures mine == old(RunningOn(State(), worker))
    {
      ghost var before := State();
      mine := {};
      var todo := refs.Keys;
      while todo != {}
        invariant todo <= refs.Keys && refs.Keys == before.refs.Keys
        invariant forall r :: r in refs ==>
          refs[r] == if r in todo then before.refs[r] else TakenBack(before.refs[r], worker)
        invariant forall r :: r in mine <==> r in before.refs && r !in todo && RunsOn(before.refs[r], worker)
        decreases todo
      {
        var r :| r in todo;
        todo := todo - {r};
        if RunsOn(refs[r], worker) {
          mine := mine + {r};
          refs := refs[r := refs[r].(lost := false)];
        }
      }
      assert mine == RunningOn(before, worker);
    }

    method AdoptOrphanRef(worker: string, ref: string)
      requires Valid()
      modifies this
      ensures State() == Apply(old(State()), AdoptOrphan(worker, ref))
      ensures Valid()
    {
      ApplyKeepsTable(State(), AdoptOrphan(worker, ref));
      if ref !in refs {
        refs := refs[ref := Ref(worker, PhaseRunning, 0, false)];
        AddActive(worker, 1);
      }
    }

    method AddActive(worker: string, delta: int)
      modifies this`all
      ensures all == Bump(old(State()), worker, delta)
    {
      if worker in sessions && sessions[worker] in all {
        var id := sessions[worker];
        all := all[id := all[id].(active := all[id].active + delta)];
      }
    }

    /**
     First half of sweep: silent streams are dropped, long-finished assignments collected,
     and the workers of running assignments without a stream become candidates.
     */
    method SweepFirst(silentStreams: set<string>, expired: set<string>) returns (candidates: set<string>)
      requires Valid()
      modifies this
      ensures State() == Apply(old(State()), SweepBegin(silentStreams, expired))
      ensures Valid()
      ensures candidates == set r | r in refs && refs[r].phase == PhaseRunning && !refs[r].lost
                                     && refs[r].worker !in sessions :: refs[r].worker
    {
      ghost var op := SweepBegin(silentStreams, expired);
      ApplyKeepsTable(State(), op);
      DropSilent(silentStreams);
      refs := map r | r in refs && !(r in expired && refs[r].phase != PhaseRunning) :: refs[r];
      candidates := set r | r in refs && refs[r].phase == PhaseRunning && !refs[r].lost
                                && refs[r].worker !in sessions :: refs[r].worker;
    }

    method DropSilent(silentStreams: set<string>)
      requires TableIsOpen(State())
      modifies this`sessions, this`open
      ensures sessions == old(sessions) - silentStreams
      ensures open == old(open) - set w | w in silentStreams && w in old(sessions) :: old(sessions)[w]
    {
      ghost var before := State();
      ghost var gone: set<string> := {};
      var todo := silentStreams * sessions.Keys;
      while todo != {}
        invariant todo <= before.sessions.Keys && gone !! todo
        invariant gone + todo == silentStreams * before.sessions.Keys
        invariant sessions == before.sessions - gone
        invariant open == before.open - set w | w in gone :: before.sessions[w]
        decreases todo
      {
        var w :| w in todo;
        todo := todo - {w};
        StreamsDiffer(before, gone, w);
        CloseDone(sessions[w]);
        sessions := sessions - {w};
        ghost var wider := gone + {w};
        assert (set v | v in wider :: before.sessions[v])
            == (set v | v in gone :: before.sessions[v]) + {before.sessions[w]};
        gone := wider;
      }
      assert gone == silentStreams * before.sessions.Keys;
      assert (set w | w in gone :: before.sessions[w])
          == set w | w in silentStreams && w in before.sessions :: before.sessions[w];
    }

    /** Second half: release what is still without a stream; returns the released assignments. */
    method SweepSecond(silent: set<string>) returns (lost: set<string>)
      requires Valid()
      modifies this
      ensures State() == Apply(old(State()), SweepEnd(silent))
      ensures Valid()
      ensures lost == set r | r in refs && refs[r].lost && !old(refs)[r].lost
    {
      ApplyKeepsTable(State(), SweepEnd(silent));
      lost := MarkLost(silent);
    }

    method MarkLost(silent: set<string>) returns (lost: set<string>)
      modifies this`refs
      ensures refs == Released(old(State()), silent)
      ensures lost == set r | r in refs && refs[r].lost && !old(refs)[r].lost
    {
      ghost var before := State();
      lost := {};
      var todo := refs.Keys;
      while todo != {}
        invariant todo <= refs.Keys && refs.Keys == before.refs.Keys
        invariant forall r :: r in refs ==>
          refs[r] == if r in todo then before.refs[r] else LetGo(before.refs[r], silent, sessions)
        invariant lost == set r | r in refs && refs[r].lost && !before.refs[r].lost
        decreases todo
      {
        var r :| r in todo;
        todo := todo - {r};
        var rs := refs[r];
        if rs.phase == PhaseRunning && !rs.lost && rs.worker in silent && rs.worker !in sessions {
          refs := refs[r := rs.(lost := true)];
          lost := lost + {r};
        }
      }
    }

    method Drop(id: nat)
      requires Valid() && id in all
      modifies this
      ensures State() == Apply(old(State()), DropSession(id))
      ensures Valid()
    {
      ApplyKeepsTable(State(), DropSession(id));
      var worker := all[id].worker;
      if worker in sessions && sessions[worker] == id {
        sessions := sessions - {worker};
        CloseDone(id);
      }
    }

    method Remove(worker: string)
      requires Valid()
      modifies this
      ensures State() == Apply(old(State()), HubSessions.Disconnect(worker))
      ensures Valid()
    {
      ApplyKeepsTable(State(), HubSessions.Disconnect(worker));
      if worker in sessions {
        CloseDone(sessions[worker]);
        sessions := sessions - {worker};
      }
      assert sessions == old(sessions) - {worker};
    }

    /** Launch on the least-loaded live, non-draining worker of the group. */
    method LaunchRef(ref: string, group: string, queueFull: bool) returns (r: LaunchResult)
      requires Valid()
      modifies this
      ensures r.AlreadyRunning? <==>
        ref in old(refs) && !old(refs)[ref].lost && old(refs)[ref].phase != PhaseUnknown
      ensures r.NoWorker? ==> forall w :: w in old(sessions) ==>
        old(all)[old(sessions)[w]].group != group || old(all)[old(sessions)[w]].draining
      ensures r.AlreadyRunning? || r.NoWorker? ==> State() == old(State())
      ensures r.QueueFull? ==> queueFull && refs == old(refs) - {ref} && all == old(all)
      ensures r.Assigned? ==>
        && !queueFull && r.worker in old(sessions)
        && old(all)[old(sessions)[r.worker]].group == group && !old(all)[old(sessions)[r.worker]].draining
        && forall w :: w in old(sessions) ==>
             var s := old(all)[old(sessions)[w]];
             s.group == group && !s.draining ==> old(all)[old(sessions)[r.worker]].active <= s.active
      ensures r.Assigned? ==> ref in refs && refs[ref] == Ref(r.worker, PhaseRunning, 0, false)
      ensures r.Assigned? ==> State() == Apply(old(State()), HubSessions.Launch(ref, group, r.worker, false))
      ensures Valid()
    {
      if ref in refs && !refs[ref].lost && refs[ref].phase != PhaseUnknown {
        return AlreadyRunning;
      }
      var found, best := false, "";
      var todo := sessions.Keys;
      while todo != {}
        invariant todo <= sessions.Keys && State() == old(State()) && nextID == old(nextID)
        invariant found ==> Eligible(State(), group, best)
        invariant !found ==> forall w :: w in sessions && w !in todo ==> !Eligible(State(), group, w)
        invariant found ==> forall w :: w in sessions && w !in todo && Eligible(State(), group, w) ==>
          all[sessions[best]].active <= all[sessions[w]].active
        decreases todo
      {
        var w :| w in todo;
        todo := todo - {w};
        var s := all[sessions[w]];
        if s.group == group && !s.draining {
          if !found || s.active < all[sessions[best]].active {
            found, best := true, w;
          }
        }
      }
      if !found {
        return NoWorker;
      }
      ApplyKeepsTable(State(), HubSessions.Launch(ref, group, best, queueFull));
      if queueFull {
        refs := refs - {ref};
        return QueueFull;
      }
      refs := refs[ref := Ref(best, PhaseRunning, 0, false)];
      AddActive(best, 1);
      r := Assigned(best);
    }

    method HandleTaskEvent(worker: string, ref: string, phase: Phase, exitCode: int, launchError: bool)
      requires Valid()
      modifies this
      ensures State() == Apply(old(State()), TaskEvent(worker, ref, phase, exitCode, launchError))
      ensures Valid()
    {
      ApplyKeepsTable(State(), TaskEvent(worker, ref, phase, exitCode, launchError));
      if ref !in refs || refs[ref].worker != worker {
        return;
      }
      var rs := refs[ref];
      if phase == PhaseExited {
        if rs.phase != PhaseExited && worker in sessions && all[sessions[worker]].active > 0 {
          AddActive(worker, -1);
        }
        rs := rs.(phase := PhaseExited, exitCode := exitCode);
      } else {
        rs := rs.(phase := phase);
      }
      if launchError {
        rs := rs.(phase := PhaseExited, exitCode := 127);
      }
      refs := refs[ref := rs];
    }

    method ForgetRef(ref: string)
      requires Valid()
      modifies this
      ensures State() == Apply(old(State()), Forget(ref))
      ensures Valid()
    {
      ApplyKeepsTable(State(), Forget(ref));
      if ref in refs && refs[ref].phase != PhaseRunning {
        refs := refs - {ref};
      }
    }

    method ProbeRef(ref: string, inBootGrace: bool) returns (p: Phase)
      ensures p == Probe(State(), ref, inBootGrace)
      ensures ref !in refs ==> p == if inBootGrace then PhaseRunning else PhaseUnknown
      ensures ref in refs ==> p == if refs[ref].lost then PhaseUnknown else refs[ref].phase
    {
      if ref !in refs {
        return if inBootGrace then PhaseRunning else PhaseUnknown;
      }
      if refs[ref].lost {
        return PhaseUnknown;
      }
      p := refs[ref].phase;
    }
  }

  /** A live stream is not among those already dropped: streams of different workers differ. */
  lemma StreamsDiffer(h: Hub, gone: set<string>, w: string)
    requires TableIsOpen(h) && gone <= h.sessions.Keys && w in h.sessions && w !in gone
    ensures h.sessions[w] in h.open - set v | v in gone :: h.sessions[v]
  {
    assert InTable(h, h.sessions[w]);
    forall v | v in gone
      ensures h.sessions[v] != h.sessions[w]
    {
      assert h.all[h.sessions[v]].worker == v;
    }
  }
}
