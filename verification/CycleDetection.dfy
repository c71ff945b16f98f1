/**
 Three-colour depth-first search over the dependency graph
 (internal/scheduler/parser/parser.go, detectCycle).
 */
module CycleDetection {
  import opened TaskModel
  import opened DagGraph

  datatype Color = Gray | Black

  /** `Found` carries what the source puts in its error: the gray path and the gray node it meets. */
  datatype Outcome = NoCycle | Found(path: seq<string>, back: string)

  ghost predicate ClosesPath(g: Graph, o: Outcome) {
    && o.Found?
    && |o.path| > 0
    && IsWalk(g, o.path)
    && o.back in o.path
    && Edge(g, o.path[|o.path| - 1], o.back)
  }

  /** The reported path, cut at the node it returns to, is a cycle. */
  lemma ReportedPathIsCycle(g: Graph, o: Outcome)
    requires ClosesPath(g, o)
    ensures exists i :: 0 <= i < |o.path| && o.path[i] == o.back && IsCycle(g, o.path[i..|o.path|] + [o.back])
    ensures HasCycle(g)
  {
    var i :| 0 <= i < |o.path| && o.path[i] == o.back;
    WalkSlice(g, o.path, i, |o.path|);
    WalkSnoc(g, o.path[i..|o.path|], o.back);
    assert IsCycle(g, o.path[i..|o.path|] + [o.back]);
  }

  ghost predicate AllIn(names: seq<string>, within: set<string>) {
    forall m :: m in names ==> m in within
  }

  lemma AllInSnoc(names: seq<string>, within: set<string>, m: string, wider: set<string>)
    requires AllIn(names, within) && within <= wider && m in wider
    ensures AllIn(names + [m], wider)
  {
  }

  ghost predicate Coloring(g: Graph, nodes: set<string>, color: map<string, Color>, rank: map<string, nat>,
                           top: nat, path: seq<string>)
  {
    && Closed(g, nodes)
    && IsWalk(g, path)
    && Ranked(g, rank)
    && (forall n :: n in rank ==> rank[n] < top)
    && (forall n :: n in rank <==> n in color && color[n] == Black)
    && (forall n :: n in path <==> n in color && color[n] == Gray)
    && color.Keys <= nodes
  }

  /** A white node turns gray at the end of the path. */
  lemma Enter(g: Graph, nodes: set<string>, color: map<string, Color>, rank: map<string, nat>, top: nat,
              path: seq<string>, n: string)
    requires Coloring(g, nodes, color, rank, top, path)
    requires n !in color && n in nodes
    requires |path| > 0 ==> Edge(g, path[|path| - 1], n)
    ensures Coloring(g, nodes, color[n := Gray], rank, top, path + [n])
    ensures n !in path
  {
    WalkSnoc(g, path, n);
  }

  /** The last gray node turns black once all its dependencies are. */
  lemma Leave(g: Graph, nodes: set<string>, color: map<string, Color>, rank: map<string, nat>, top: nat,
              path: seq<string>, n: string)
    requires Coloring(g, nodes, color, rank, top, path + [n])
    requires n !in path && AllIn(Succ(g, n), rank.Keys)
    ensures Coloring(g, nodes, color[n := Black], rank[n := top], top + 1, path)
  {
    var here := path + [n];
    assert here[|path|] in here && n !in rank;
    var next := rank[n := top];
    forall a | a in next
      ensures RanksBelow(g, next, a)
    {
      if a != n {
        assert RanksBelow(g, rank, a);
      }
    }
    WalkSlice(g, here, 0, |path|);
    assert here[0..|path|] == path;
    assert forall a :: a in here <==> a in path || a == n;
  }

  class Search {
    const adj: Graph
    ghost const nodes: set<string>
    /** A node absent from the map is white. */
    var color: map<string, Color>
    /** Finishing order: a node is ranked when it turns black. */
    ghost var rank: map<string, nat>
    ghost var top: nat

    constructor (g: Graph, ghost universe: set<string>)
      requires Closed(g, universe)
      ensures adj == g && nodes == universe && color == map[] && Valid([])
    {
      adj := g;
      nodes := universe;
      color := map[];
      rank := map[];
      top := 0;
    }

    /** The gray nodes are exactly the current path, the black ones exactly the ranked ones. */
    ghost predicate Valid(path: seq<string>)
      reads this
    {
      Coloring(adj, nodes, color, rank, top, path)
    }

    method Visit(n: string, path: seq<string>) returns (r: Outcome)
      requires Valid(path)
      requires n !in color && n in nodes
      requires |path| > 0 ==> Edge(adj, path[|path| - 1], n)
      modifies this
      ensures r.NoCycle? ==> Valid(path) && n in rank
      ensures r.NoCycle? ==> old(rank).Keys <= rank.Keys
      ensures r.NoCycle? ==> old(color).Keys <= color.Keys
      ensures r.Found? ==> ClosesPath(adj, r)
      decreases nodes - color.Keys
    {
      var here := path + [n];
      Enter(adj, nodes, color, rank, top, path, n);
      color := color[n := Gray];
      var out := Succ(adj, n);
      for i := 0 to |out|
        invariant Valid(here)
        invariant old(color).Keys + {n} <= color.Keys
        invariant old(rank).Keys <= rank.Keys
        invariant AllIn(out[..i], rank.Keys)
      {
        var m := out[i];
        ghost var before := rank.Keys;
        assert Edge(adj, n, m);
        if m in color {
          if color[m] == Gray {
            return Found(here, m);
          }
        } else {
          r := Visit(m, here);
          if r.Found? {
            return;
          }
        }
        AllInSnoc(out[..i], before, m, rank.Keys);
        assert out[..i + 1] == out[..i] + [m];
      }
      assert out[..|out|] == out;
      Leave(adj, nodes, color, rank, top, path, n);
      color, rank, top := color[n := Black], rank[n := top], top + 1;
      r := NoCycle;
    }

    method SearchAll(order: seq<string>) returns (r: Outcome)
      requires Valid([]) && color == map[]
      requires forall n :: n in order ==> n in nodes
      modifies this
      ensures r.NoCycle? ==> Ranked(adj, rank) && forall n :: n in order ==> n in rank
      ensures r.Found? ==> ClosesPath(adj, r)
    {
      for i := 0 to |order|
        invariant Valid([])
        invariant forall k :: 0 <= k < i ==> order[k] in rank
      {
        if order[i] !in color {
          r := Visit(order[i], []);
          if r.Found? {
            return;
          }
        }
      }
      r := NoCycle;
    }
  }

  /** No error if and only if the graph has no cycle, whatever the task list. */
  method DetectCycle(tasks: seq<Task>) returns (r: Outcome)
    ensures r.NoCycle? <==> !HasCycle(Adjacency(tasks))
    ensures r.Found? ==> ClosesPath(Adjacency(tasks), r)
  {
    var g := Adjacency(tasks);
    ghost var universe := g.Keys + set n, i | n in g && 0 <= i < |g[n]| :: g[n][i];
    assert Closed(g, universe) by {
      forall n, m | n in universe && Edge(g, n, m)
        ensures m in universe
      {
        var i :| 0 <= i < |g[n]| && g[n][i] == m;
      }
    }
    var search := new Search(g, universe);
    var order := seq(|tasks|, i requires 0 <= i < |tasks| => tasks[i].id);
    forall k | 0 <= k < |tasks|
      ensures order[k] in g
    {
      IdsAreKeys(tasks, k);
    }
    r := search.SearchAll(order);
    if r.Found? {
      ReportedPathIsCycle(g, r);
    } else {
      forall n | n in g
        ensures n in search.rank
      {
        AdjacencyKeys(tasks, n);
        var k :| 0 <= k < |tasks| && tasks[k].id == n;
        assert order[k] == n;
      }
      RankedIsAcyclic(g, search.rank);
    }
  }

  lemma {:induction false} IdsAreKeys(tasks: seq<Task>, k: nat)
    requires k < |tasks|
    ensures tasks[k].id in Adjacency(tasks)
  {
    var last := |tasks| - 1;
    if k < last {
      IdsAreKeys(tasks[..last], k);
    }
  }
}
