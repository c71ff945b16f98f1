/**
 The dependency graph of a task list: edges run from a task to each of its
 dependencies (internal/scheduler/parser/parser.go).
 */
module DagGraph {
  import opened TaskModel

  /** Adjacency as the cycle search builds it; a later task with the same id wins. */
  type Graph = map<string, seq<string>>

  function Adjacency(tasks: seq<Task>): Graph {
    if |tasks| == 0 then map[]
    else Adjacency(tasks[..|tasks| - 1])[tasks[|tasks| - 1].id := tasks[|tasks| - 1].deps]
  }

  function Succ(g: Graph, n: string): seq<string> {
    if n in g then g[n] else []
  }

  ghost predicate Edge(g: Graph, a: string, b: string) {
    b in Succ(g, a)
  }

  ghost predicate StepAt(g: Graph, p: seq<string>, i: nat)
    requires i + 1 < |p|
  {
    Edge(g, p[i], p[i + 1])
  }

  ghost predicate IsWalk(g: Graph, p: seq<string>) {
    forall i: nat :: i + 1 < |p| ==> StepAt(g, p, i)
  }

  lemma WalkSnoc(g: Graph, p: seq<string>, n: string)
    requires IsWalk(g, p)
    requires |p| > 0 ==> Edge(g, p[|p| - 1], n)
    ensures IsWalk(g, p + [n])
  {
    var q := p + [n];
    forall i: nat | i + 1 < |q|
      ensures StepAt(g, q, i)
    {
      if i + 1 < |p| {
        assert StepAt(g, p, i);
      }
    }
  }

  lemma WalkSlice(g: Graph, p: seq<string>, lo: nat, hi: nat)
    requires IsWalk(g, p) && lo <= hi <= |p|
    ensures IsWalk(g, p[lo..hi])
  {
    var q := p[lo..hi];
    forall i: nat | i + 1 < |q|
      ensures StepAt(g, q, i)
    {
      assert StepAt(g, p, lo + i);
    }
  }

  ghost predicate IsCycle(g: Graph, p: seq<string>) {
    |p| >= 2 && p[0] == p[|p| - 1] && IsWalk(g, p)
  }

  /** Every step of a cycle is an edge, and leads on to another. */
  lemma CycleGoesOn(g: Graph, p: seq<string>, i: nat) returns (beyond: string)
    requires IsCycle(g, p) && i + 1 < |p|
    ensures Edge(g, p[i], p[i + 1]) && Edge(g, p[i + 1], beyond)
  {
    assert StepAt(g, p, i);
    if i + 2 < |p| {
      assert StepAt(g, p, i + 1);
      beyond := p[i + 2];
    } else {
      assert StepAt(g, p, 0);
      beyond := p[1];
    }
  }

  ghost predicate HasCycle(g: Graph) {
    exists p :: IsCycle(g, p)
  }

  /** Every dependency of a ranked node is ranked lower. */
  ghost predicate RanksBelow(g: Graph, rank: map<string, nat>, n: string) {
    forall m :: m in Succ(g, n) ==> m in rank && n in rank && rank[m] < rank[n]
  }

  ghost predicate Ranked(g: Graph, rank: map<string, nat>) {
    forall n {:trigger RanksBelow(g, rank, n)} :: n in rank ==> RanksBelow(g, rank, n)
  }

  /** A walk from a ranked node goes down in rank, so it never returns to where it began. */
  lemma {:induction false} WalkDescends(g: Graph, rank: map<string, nat>, p: seq<string>)
    requires Ranked(g, rank) && |p| > 0 && p[0] in rank && IsWalk(g, p)
    ensures p[|p| - 1] in rank && rank[p[|p| - 1]] + |p| - 1 <= rank[p[0]]
  {
    if |p| > 1 {
      WalkSlice(g, p, 0, |p| - 1);
      assert p[0..|p| - 1] == p[..|p| - 1];
      WalkDescends(g, rank, p[..|p| - 1]);
      assert StepAt(g, p, |p| - 2);
      assert RanksBelow(g, rank, p[|p| - 2]);
    }
  }

  /** A ranking of every node with outgoing edges rules out cycles. */
  lemma RankedIsAcyclic(g: Graph, rank: map<string, nat>)
    requires Ranked(g, rank) && g.Keys <= rank.Keys
    ensures !HasCycle(g)
  {
    forall p | IsCycle(g, p)
      ensures false
    {
      assert StepAt(g, p, 0);
      WalkDescends(g, rank, p);
    }
  }

  ghost predicate HasSuccessorIn(g: Graph, inside: set<string>, a: string) {
    exists b :: b in inside && Edge(g, a, b)
  }

  ghost predicate NoSink(g: Graph, inside: set<string>) {
    forall a {:trigger HasSuccessorIn(g, inside, a)} :: a in inside ==> HasSuccessorIn(g, inside, a)
  }

  /** From a node of a set in which every node has a successor one can walk any number of steps. */
  lemma {:induction false} WalkInside(g: Graph, inside: set<string>, n: nat) returns (p: seq<string>)
    requires inside != {} && NoSink(g, inside)
    ensures |p| == n + 1 && IsWalk(g, p) && forall i :: 0 <= i < |p| ==> p[i] in inside
  {
    if n == 0 {
      var a :| a in inside;
      p := [a];
    } else {
      var q := WalkInside(g, inside, n - 1);
      assert HasSuccessorIn(g, inside, q[n - 1]);
      var b :| b in inside && Edge(g, q[n - 1], b);
      WalkSnoc(g, q, b);
      p := q + [b];
    }
  }

  /** More positions than values: two positions agree. */
  lemma {:induction false} Pigeonhole(p: seq<string>, inside: set<string>) returns (i: nat, j: nat)
    requires |p| > |inside|
    requires forall k :: 0 <= k < |p| ==> p[k] in inside
    ensures i < j < |p| && p[i] == p[j]
    decreases |p|
  {
    var last := |p| - 1;
    if k :| 0 <= k < last && p[k] == p[last] {
      return k, last;
    }
    i, j := Pigeonhole(p[..last], inside - {p[last]});
  }

  /** A nonempty set in which every node has a successor contains a cycle. */
  lemma NoSinkMeansCycle(g: Graph, inside: set<string>)
    requires inside != {} && NoSink(g, inside)
    ensures HasCycle(g)
  {
    var p := WalkInside(g, inside, |inside|);
    var i, j := Pigeonhole(p, inside);
    WalkSlice(g, p, i, j + 1);
    assert IsCycle(g, p[i..j + 1]);
  }

  /** With distinct ids, a task's own dependency list is its adjacency. */
  lemma {:induction false} AdjacencyOf(tasks: seq<Task>, k: nat)
    requires k < |tasks|
    requires forall i, j :: 0 <= i < j < |tasks| ==> tasks[i].id != tasks[j].id
    ensures tasks[k].id in Adjacency(tasks) && Adjacency(tasks)[tasks[k].id] == tasks[k].deps
  {
    var last := |tasks| - 1;
    if k < last {
      AdjacencyOf(tasks[..last], k);
    }
  }

  lemma {:induction false} AdjacencyKeys(tasks: seq<Task>, n: string)
    requires n in Adjacency(tasks)
    ensures exists k :: 0 <= k < |tasks| && tasks[k].id == n && Adjacency(tasks)[n] == tasks[k].deps
  {
    var last := |tasks| - 1;
    if tasks[last].id != n {
      AdjacencyKeys(tasks[..last], n);
      var k :| 0 <= k < last && tasks[..last][k].id == n && Adjacency(tasks[..last])[n] == tasks[..last][k].deps;
      assert tasks[k].id == n && Adjacency(tasks)[n] == tasks[k].deps;
    }
  }

  /** `b` can be reached from `a` in zero or more steps. */
  ghost predicate Reaches(g: Graph, a: string, b: string) {
    exists p :: IsPath(g, p, a, b)
  }

  ghost predicate IsPath(g: Graph, p: seq<string>, a: string, b: string) {
    |p| > 0 && p[0] == a && p[|p| - 1] == b && IsWalk(g, p)
  }

  lemma ReachesItself(g: Graph, a: string)
    ensures Reaches(g, a, a)
  {
    assert IsPath(g, [a], a, a);
  }

  lemma ReachesFurther(g: Graph, a: string, b: string, c: string)
    requires Reaches(g, a, b) && Edge(g, b, c)
    ensures Reaches(g, a, c)
  {
    var p :| IsPath(g, p, a, b);
    WalkSnoc(g, p, c);
    assert IsPath(g, p + [c], a, c);
  }

  ghost predicate Closed(g: Graph, nodes: set<string>) {
    forall n, m {:trigger Edge(g, n, m)} :: n in nodes && Edge(g, n, m) ==> m in nodes
  }

  /** A set closed under edges holds everything its members reach. */
  lemma {:induction false} ClosedHoldsPath(g: Graph, nodes: set<string>, p: seq<string>, a: string, b: string)
    requires Closed(g, nodes) && a in nodes && IsPath(g, p, a, b)
    ensures b in nodes
    decreases |p|
  {
    if |p| > 1 {
      WalkSlice(g, p, 0, |p| - 1);
      ClosedHoldsPath(g, nodes, p[0..|p| - 1], a, p[|p| - 2]);
      assert StepAt(g, p, |p| - 2);
    }
  }

  lemma ClosedHoldsReachable(g: Graph, nodes: set<string>, a: string, b: string)
    requires Closed(g, nodes) && a in nodes && Reaches(g, a, b)
    ensures b in nodes
  {
    var p :| IsPath(g, p, a, b);
    ClosedHoldsPath(g, nodes, p, a, b);
  }
}
