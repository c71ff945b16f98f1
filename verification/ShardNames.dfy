/**
 What foreach expansion does to cycles when dependencies may name generated shard ids
 (internal/scheduler/parser/parser.go, expandForeach).
 */
module ShardNames {
  import opened TaskModel
  import opened DagGraph
  import opened DependencyChecks
  import opened Foreach

  /** The original task that a dependency, as written, is on. */
  ghost function Meant(specs: seq<TaskSpec>, d: string): string {
    if IsFanOut(specs, d) then d else Drop(specs, d)
  }

  /** The DAG as written, with every shard name read as its original. */
  ghost function Resolved(specs: seq<TaskSpec>): seq<Task> {
    seq(|specs|, i requires 0 <= i < |specs| => specs[i].task.(deps := MeantDeps(specs, specs[i].task.deps)))
  }

  ghost function MeantDeps(specs: seq<TaskSpec>, deps: seq<string>): seq<string> {
    seq(|deps|, k requires 0 <= k < |deps| => Meant(specs, deps[k]))
  }

  ghost function GraphMeant(specs: seq<TaskSpec>): Graph {
    Adjacency(Resolved(specs))
  }

  lemma EdgesMeant(specs: seq<TaskSpec>, a: string, b: string)
    requires UniqueBefore(specs)
    ensures Edge(GraphMeant(specs), a, b) <==>
      exists i, d :: 0 <= i < |specs| && specs[i].task.id == a && d in specs[i].task.deps && Meant(specs, d) == b
  {
    var tasks := Resolved(specs);
    assert DistinctIds(tasks) by {
      forall i, j | 0 <= i < j < |tasks|
        ensures tasks[i].id != tasks[j].id
      {
        assert Plain(specs)[i].id != Plain(specs)[j].id;
      }
    }
    if Edge(GraphMeant(specs), a, b) {
      AdjacencyKeys(tasks, a);
      var i :| 0 <= i < |tasks| && tasks[i].id == a && Adjacency(tasks)[a] == tasks[i].deps;
      var k :| 0 <= k < |tasks[i].deps| && tasks[i].deps[k] == b;
      assert specs[i].task.deps[k] in specs[i].task.deps;
    }
    if i, d :| 0 <= i < |specs| && specs[i].task.id == a && d in specs[i].task.deps && Meant(specs, d) == b {
      var k :| 0 <= k < |specs[i].task.deps| && specs[i].task.deps[k] == d;
      AdjacencyOf(tasks, i);
      assert tasks[i].deps[k] == b;
    }
  }

  lemma DropToMeant(specs: seq<TaskSpec>, a: string, b: string)
    requires UniqueBefore(specs) && UniqueAfter(specs) && Edge(GraphAfter(specs), a, b)
    ensures Edge(GraphMeant(specs), Drop(specs, a), Drop(specs, b))
  {
    EdgesAfter(specs, a, b);
    var i, d :| 0 <= i < |specs| && NameOf(specs, i, a) && d in specs[i].task.deps && Becomes(specs, d, b);
    DropNames(specs, i, a);
    if IsFanOut(specs, d) {
      var j := ShardComesFrom(specs, d, b);
      DropNames(specs, j, b);
    }
    assert Meant(specs, d) == Drop(specs, b);
    EdgesMeant(specs, Drop(specs, a), Drop(specs, b));
  }

  /** `m` is an expanded name of `y` that every expanded name of `x` depends on. */
  ghost predicate GoesTo(specs: seq<TaskSpec>, x: string, y: string, m: string) {
    && NamesOne(specs, y, m)
    && forall n :: NamesOne(specs, x, n) ==> Edge(GraphAfter(specs), n, m)
  }

  ghost predicate NamesOne(specs: seq<TaskSpec>, id: string, n: string) {
    exists i :: 0 <= i < |specs| && specs[i].task.id == id && NameOf(specs, i, n)
  }

  lemma SameSpec(specs: seq<TaskSpec>, i: nat, j: nat)
    requires UniqueBefore(specs) && i < |specs| && j < |specs| && specs[i].task.id == specs[j].task.id
    ensures i == j
  {
    assert Plain(specs)[i].id == Plain(specs)[j].id;
  }

  /** The name that the dependency `d` on `y` becomes, one of them if it becomes several. */
  lemma NameMeant(specs: seq<TaskSpec>, j: nat, d: string) returns (m: string)
    requires UniqueBefore(specs) && UniqueAfter(specs) && j < |specs| && Meant(specs, d) == specs[j].task.id
    ensures NameOf(specs, j, m) && Becomes(specs, d, m)
  {
    LiftNames(specs, j);
    if IsFanOut(specs, d) {
      m := Lift(specs, d);
      ShardIsListed(specs, j, m);
    } else {
      m := d;
      if IsShard(specs, d) {
        var k :| 0 <= k < |specs| && specs[k].FansOut() && NameOf(specs, k, d) && Drop(specs, d) == specs[k].task.id;
        SameSpec(specs, j, k);
      } else {
        assert Lift(specs, d) == d;
      }
    }
  }

  lemma EdgeHasTarget(specs: seq<TaskSpec>, x: string, y: string, j: nat)
    requires UniqueBefore(specs) && UniqueAfter(specs) && Edge(GraphMeant(specs), x, y)
    requires j < |specs| && specs[j].task.id == y
    ensures exists m :: GoesTo(specs, x, y, m)
  {
    EdgesMeant(specs, x, y);
    var i, d :| 0 <= i < |specs| && specs[i].task.id == x && d in specs[i].task.deps && Meant(specs, d) == y;
    var m := NameMeant(specs, j, d);
    assert NamesOne(specs, y, m);
    forall n | NamesOne(specs, x, n)
      ensures Edge(GraphAfter(specs), n, m)
    {
      var k :| 0 <= k < |specs| && specs[k].task.id == x && NameOf(specs, k, n);
      SameSpec(specs, i, k);
      EdgesAfter(specs, n, m);
    }
    assert GoesTo(specs, x, y, m);
  }

  lemma SourceIsTask(specs: seq<TaskSpec>, x: string, y: string) returns (i: nat)
    requires UniqueBefore(specs) && Edge(GraphMeant(specs), x, y)
    ensures i < |specs| && specs[i].task.id == x
  {
    EdgesMeant(specs, x, y);
    var k, d :| 0 <= k < |specs| && specs[k].task.id == x && d in specs[k].task.deps && Meant(specs, d) == y;
    i := k;
  }

  ghost function Target(specs: seq<TaskSpec>, x: string, y: string): string {
    if m :| GoesTo(specs, x, y, m) then m else y
  }

  /** Every step of a cycle has a target, as every node on it is a task. */
  lemma CycleHasTargets(specs: seq<TaskSpec>, q: seq<string>, i: nat)
    requires UniqueBefore(specs) && UniqueAfter(specs) && IsCycle(GraphMeant(specs), q) && i + 1 < |q|
    ensures GoesTo(specs, q[i], q[i + 1], Target(specs, q[i], q[i + 1]))
  {
    var beyond := CycleGoesOn(GraphMeant(specs), q, i);
    var j := SourceIsTask(specs, q[i + 1], beyond);
    EdgeHasTarget(specs, q[i], q[i + 1], j);
  }

  lemma TargetsChain(specs: seq<TaskSpec>, w: string, x: string, y: string, m: string, n: string)
    requires GoesTo(specs, w, x, m) && GoesTo(specs, x, y, n)
    ensures Edge(GraphAfter(specs), m, n)
  {
  }

  /** The expanded name at a place of a cycle: what the step before it leads to. */
  ghost function LiftedAt(specs: seq<TaskSpec>, q: seq<string>, k: nat): string
    requires |q| >= 2 && k < |q|
  {
    if k == 0 then Target(specs, q[|q| - 2], q[|q| - 1]) else Target(specs, q[k - 1], q[k])
  }

  ghost function Lifted(specs: seq<TaskSpec>, q: seq<string>): (p: seq<string>)
    requires |q| >= 2
    ensures |p| == |q|
  {
    seq(|q|, k requires 0 <= k < |q| => LiftedAt(specs, q, k))
  }

  lemma LiftedStep(specs: seq<TaskSpec>, q: seq<string>, i: nat)
    requires UniqueBefore(specs) && UniqueAfter(specs) && IsCycle(GraphMeant(specs), q) && i + 1 < |q|
    ensures Edge(GraphAfter(specs), LiftedAt(specs, q, i), LiftedAt(specs, q, i + 1))
  {
    var before := if i == 0 then |q| - 2 else i - 1;
    CycleHasTargets(specs, q, before);
    CycleHasTargets(specs, q, i);
    assert q[before + 1] == q[i];
    TargetsChain(specs, q[before], q[i], q[i + 1], LiftedAt(specs, q, i), LiftedAt(specs, q, i + 1));
  }

  lemma CyclesDrop(specs: seq<TaskSpec>, p: seq<string>)
    requires UniqueBefore(specs) && UniqueAfter(specs) && IsCycle(GraphAfter(specs), p)
    ensures HasCycle(GraphMeant(specs))
  {
    var q := seq(|p|, i requires 0 <= i < |p| => Drop(specs, p[i]));
    forall i: nat | i + 1 < |q|
      ensures StepAt(GraphMeant(specs), q, i)
    {
      assert StepAt(GraphAfter(specs), p, i);
      DropToMeant(specs, p[i], p[i + 1]);
    }
    assert IsCycle(GraphMeant(specs), q);
  }

  lemma LiftedIsWalk(specs: seq<TaskSpec>, q: seq<string>)
    requires UniqueBefore(specs) && UniqueAfter(specs) && IsCycle(GraphMeant(specs), q)
    ensures IsWalk(GraphAfter(specs), Lifted(specs, q))
  {
    var p, g := Lifted(specs, q), GraphAfter(specs);
    forall i: nat | i + 1 < |p|
      ensures StepAt(g, p, i)
    {
      LiftedStep(specs, q, i);
      assert p[i] == LiftedAt(specs, q, i) && p[i + 1] == LiftedAt(specs, q, i + 1);
    }
  }

  lemma LiftedCloses(specs: seq<TaskSpec>, q: seq<string>)
    requires |q| >= 2
    ensures Lifted(specs, q)[0] == Lifted(specs, q)[|q| - 1]
  {
    assert LiftedAt(specs, q, 0) == LiftedAt(specs, q, |q| - 1);
  }

  lemma CyclesLift(specs: seq<TaskSpec>, q: seq<string>)
    requires UniqueBefore(specs) && UniqueAfter(specs) && IsCycle(GraphMeant(specs), q)
    ensures HasCycle(GraphAfter(specs))
  {
    LiftedIsWalk(specs, q);
    LiftedCloses(specs, q);
    assert IsCycle(GraphAfter(specs), Lifted(specs, q));
  }

  /**
   With unique ids before and after, the expanded graph has a cycle exactly when the DAG
   as written has one once every shard name is read as its original.
   */
  lemma ExpansionCyclesExactly(specs: seq<TaskSpec>)
    requires UniqueBefore(specs) && UniqueAfter(specs)
    ensures HasCycle(GraphAfter(specs)) <==> HasCycle(GraphMeant(specs))
  {
    if p :| IsCycle(GraphAfter(specs), p) {
      CyclesDrop(specs, p);
    }
    if q :| IsCycle(GraphMeant(specs), q) {
      CyclesLift(specs, q);
    }
  }

  /** Without shard names among the dependencies, that is the DAG as written. */
  lemma NoShardNamedMeansAsWritten(specs: seq<TaskSpec>)
    requires NoShardNamed(specs)
    ensures GraphMeant(specs) == GraphBefore(specs)
  {
    var plain := Plain(specs);
    assert Resolved(specs) == plain by {
      forall i | 0 <= i < |specs|
        ensures MeantDeps(specs, specs[i].task.deps) == specs[i].task.deps
      {
        forall k | 0 <= k < |specs[i].task.deps|
          ensures Meant(specs, specs[i].task.deps[k]) == specs[i].task.deps[k]
        {
          assert specs[i].task.deps[k] in specs[i].task.deps;
        }
      }
    }
  }

  /** So foreach expansion keeps cycles both ways when no dependency names a shard directly. */
  lemma ExpansionKeepsCycles(specs: seq<TaskSpec>)
    requires UniqueBefore(specs) && UniqueAfter(specs) && NoShardNamed(specs)
    ensures HasCycle(GraphAfter(specs)) <==> HasCycle(GraphBefore(specs))
  {
    ExpansionCyclesExactly(specs);
    NoShardNamedMeansAsWritten(specs);
  }
}
