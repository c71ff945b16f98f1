/**
 Parse-time fan-out of foreach tasks (internal/scheduler/parser/parser.go, expandForeach).
 Substituting the item into the command text is not part of the model.
 */
module Foreach {
  import opened TaskModel
  import opened DagGraph
  import opened DependencyChecks
  import opened Text

  const MAX_TASKS := 1000

  /** A task as written, with its list of items; an empty list means an ordinary task. */
  datatype TaskSpec = TaskSpec(task: Task, items: seq<string>) {
    predicate FansOut() {
      |items| > 0
    }
  }

  datatype Expansion = Expanded(tasks: seq<Task>) | MissingId | TooManyShards(id: string) | TooManyTasks

  function ShardId(id: string, i: nat): string {
    id + "_" + Decimal(i)
  }

  function ShardIds(t: TaskSpec): seq<string> {
    seq(|t.items|, i requires 0 <= i < |t.items| => ShardId(t.task.id, i))
  }

  /** The ids a task goes by after expansion. */
  function Names(t: TaskSpec): seq<string> {
    if t.FansOut() then ShardIds(t) else [t.task.id]
  }

  function Copies(t: TaskSpec): seq<Task> {
    seq(|Names(t)|, i requires 0 <= i < |Names(t)| => t.task.(id := Names(t)[i]))
  }

  /** Every task replaced by its copies, dependencies not yet rewritten. */
  function Unfolded(specs: seq<TaskSpec>): seq<Task> {
    if |specs| == 0 then [] else Unfolded(specs[..|specs| - 1]) + Copies(specs[|specs| - 1])
  }

  predicate IsFanOut(specs: seq<TaskSpec>, id: string) {
    exists i :: 0 <= i < |specs| && specs[i].FansOut() && specs[i].task.id == id
  }

  /** All shards recorded under one original id. */
  function ShardsOf(specs: seq<TaskSpec>, id: string): seq<string> {
    if |specs| == 0 then []
    else
      var t := specs[|specs| - 1];
      ShardsOf(specs[..|specs| - 1], id) + if t.FansOut() && t.task.id == id then ShardIds(t) else []
  }

  function Rewritten(specs: seq<TaskSpec>, deps: seq<string>): seq<string> {
    if |deps| == 0 then []
    else
      var d := deps[|deps| - 1];
      Rewritten(specs, deps[..|deps| - 1]) + if IsFanOut(specs, d) then ShardsOf(specs, d) else [d]
  }

  function Relinked(specs: seq<TaskSpec>, tasks: seq<Task>): seq<Task> {
    seq(|tasks|, i requires 0 <= i < |tasks| => tasks[i].(deps := Rewritten(specs, tasks[i].deps)))
  }

  function Plain(specs: seq<TaskSpec>): seq<Task> {
    seq(|specs|, i requires 0 <= i < |specs| => specs[i].task)
  }

  predicate NoFanOut(specs: seq<TaskSpec>) {
    forall i :: 0 <= i < |specs| ==> !specs[i].FansOut()
  }

  /** The source's two passes: fill `out` and `shards`, then rewrite dependency lists in place. */
  method ExpandForeach(specs: seq<TaskSpec>) returns (r: Expansion)
    ensures NoFanOut(specs) ==> r == Expanded(Plain(specs))
    ensures !NoFanOut(specs) && r.Expanded? ==> r.tasks == Relinked(specs, Unfolded(specs))
    ensures !NoFanOut(specs) ==>
      (r.Expanded? <==>
        && |Unfolded(specs)| <= 1000
        && WithinLimits(specs))
  {
    if NoFanOut(specs) {
      return Expanded(Plain(specs));
    }
    var bad, out, shards := FillShards(specs);
    if bad != Expanded([]) {
      return bad;
    }
    if |out| > MAX_TASKS {
      return TooManyTasks;
    }
    for i := 0 to |out|
      invariant |out| == |Unfolded(specs)|
      invariant forall k :: 0 <= k < i ==> out[k] == Relinked(specs, Unfolded(specs))[k]
      invariant forall k :: i <= k < |out| ==> out[k] == Unfolded(specs)[k]
    {
      var nd := RewriteDeps(specs, shards, out[i].deps);
      out := out[i := out[i].(deps := nd)];
    }
    r := Expanded(out);
  }

  ghost predicate Admissible(t: TaskSpec) {
    t.FansOut() ==> t.task.id != "" && |t.items| <= 1000
  }

  ghost predicate WithinLimits(specs: seq<TaskSpec>) {
    forall i :: 0 <= i < |specs| ==> Admissible(specs[i])
  }

  /** The first pass after some specs: the tasks so far, and each foreach id's shards. */
  ghost predicate Filled(done: seq<TaskSpec>, out: seq<Task>, shards: map<string, seq<string>>) {
    out == Unfolded(done) && Records(shards, done)
  }

  ghost predicate Records(shards: map<string, seq<string>>, specs: seq<TaskSpec>) {
    && (forall id :: id in shards <==> IsFanOut(specs, id))
    && (forall id :: id in shards ==> shards[id] == ShardsOf(specs, id))
  }

  /** First pass; `bad` stays `Expanded([])` unless a foreach task is refused. */
  method FillShards(specs: seq<TaskSpec>) returns (bad: Expansion, out: seq<Task>, shards: map<string, seq<string>>)
    ensures bad == Expanded([]) <==> WithinLimits(specs)
    ensures bad.Expanded? ==> bad == Expanded([])
    ensures WithinLimits(specs) ==> out == Unfolded(specs) && Records(shards, specs)
  {
    bad, out, shards := Expanded([]), [], map[];
    ghost var done: seq<TaskSpec> := [];
    for i := 0 to |specs|
      invariant done == specs[..i] && Filled(done, out, shards)
      invariant forall k :: 0 <= k < i ==> Admissible(specs[k])
      invariant bad == Expanded([])
    {
      bad := Refusal(specs[i]);
      if bad != Expanded([]) {
        assert !Admissible(specs[i]);
        return;
      }
      out, shards := FillOne(done, specs[i], out, shards);
      done := done + [specs[i]];
    }
    assert done == specs;
  }

  function Refusal(t: TaskSpec): (bad: Expansion)
    ensures bad == Expanded([]) <==> Admissible(t)
    ensures bad.Expanded? ==> bad == Expanded([])
  {
    if t.FansOut() && t.task.id == "" then MissingId
    else if |t.items| > MAX_TASKS then TooManyShards(t.task.id)
    else Expanded([])
  }

  method FillOne(ghost done: seq<TaskSpec>, t: TaskSpec, out: seq<Task>, shards: map<string, seq<string>>)
    returns (out': seq<Task>, shards': map<string, seq<string>>)
    requires Filled(done, out, shards)
    ensures Filled(done + [t], out', shards')
  {
    assert (done + [t])[..|done|] == done;
    if !t.FansOut() {
      RecordsPlain(shards, done, t);
      assert Copies(t) == [t.task];
      return out + [t.task], shards;
    }
    RecordsShards(shards, done, t);
    var mine := if t.task.id in shards then shards[t.task.id] else [];
    var copies, ids := Shards(t);
    return out + copies, shards[t.task.id := mine + ids];
  }

  lemma RecordsPlain(shards: map<string, seq<string>>, done: seq<TaskSpec>, t: TaskSpec)
    requires !t.FansOut() && Records(shards, done)
    ensures Records(shards, done + [t])
  {
    FanOutSnoc(done + [t], |done|);
    assert (done + [t])[..|done|] == done && (done + [t])[..|done| + 1] == done + [t];
  }

  lemma RecordsShards(shards: map<string, seq<string>>, done: seq<TaskSpec>, t: TaskSpec)
    requires t.FansOut() && Records(shards, done)
    ensures var mine := if t.task.id in shards then shards[t.task.id] else [];
      Records(shards[t.task.id := mine + ShardIds(t)], done + [t])
  {
    FanOutSnoc(done + [t], |done|);
    assert (done + [t])[..|done|] == done && (done + [t])[..|done| + 1] == done + [t];
    if t.task.id !in shards {
      NotFanOutNoShards(done, t.task.id);
    }
  }

  method Shards(t: TaskSpec) returns (copies: seq<Task>, ids: seq<string>)
    requires t.FansOut()
    ensures copies == Copies(t) && ids == ShardIds(t)
  {
    copies, ids := [], [];
    for j := 0 to |t.items|
      invariant |copies| == |ids| == j
      invariant forall k :: 0 <= k < j ==> copies[k] == t.task.(id := ShardId(t.task.id, k))
      invariant forall k :: 0 <= k < j ==> ids[k] == ShardId(t.task.id, k)
    {
      copies := copies + [t.task.(id := ShardId(t.task.id, j))];
      ids := ids + [ShardId(t.task.id, j)];
    }
  }

  method RewriteDeps(ghost specs: seq<TaskSpec>, shards: map<string, seq<string>>, deps: seq<string>)
    returns (nd: seq<string>)
    requires Records(shards, specs)
    ensures nd == Rewritten(specs, deps)
  {
    nd := [];
    for j := 0 to |deps|
      invariant nd == Rewritten(specs, deps[..j])
    {
      assert deps[..j + 1][..j] == deps[..j];
      if deps[j] in shards {
        nd := nd + shards[deps[j]];
      } else {
        nd := nd + [deps[j]];
      }
    }
    assert deps[..|deps|] == deps;
  }

  lemma FanOutSnoc(specs: seq<TaskSpec>, i: nat)
    requires i < |specs|
    ensures forall id :: IsFanOut(specs[..i + 1], id) <==>
      IsFanOut(specs[..i], id) || (specs[i].FansOut() && specs[i].task.id == id)
  {
    forall id
      ensures IsFanOut(specs[..i + 1], id) <==>
        IsFanOut(specs[..i], id) || (specs[i].FansOut() && specs[i].task.id == id)
    {
      var more, less := specs[..i + 1], specs[..i];
      assert more[i] == specs[i];
      if k :| 0 <= k < i && less[k].FansOut() && less[k].task.id == id {
        assert more[k].FansOut() && more[k].task.id == id;
      }
      if k :| 0 <= k < i + 1 && more[k].FansOut() && more[k].task.id == id {
        if k < i {
          assert less[k].FansOut() && less[k].task.id == id;
        }
      }
    }
  }

  lemma {:induction false} NotFanOutNoShards(specs: seq<TaskSpec>, id: string)
    requires !IsFanOut(specs, id)
    ensures ShardsOf(specs, id) == []
  {
    if |specs| > 0 {
      assert specs[..|specs| - 1][..] == specs[..|specs| - 1];
      FanOutSnoc(specs, |specs| - 1);
      assert specs[..|specs|] == specs;
      NotFanOutNoShards(specs[..|specs| - 1], id);
    }
  }

  // ---- what the expansion means ----

  /** `n` is a name `specs[i]` goes by after expansion. */
  predicate NameOf(specs: seq<TaskSpec>, i: nat, n: string)
    requires i < |specs|
  {
    n in Names(specs[i])
  }

  /** Every expanded task is a copy of one original, with that original's dependencies. */
  lemma {:induction false} UnfoldedHasOrigin(specs: seq<TaskSpec>, k: nat) returns (i: nat)
    requires k < |Unfolded(specs)|
    ensures i < |specs| && NameOf(specs, i, Unfolded(specs)[k].id)
    ensures Unfolded(specs)[k].deps == specs[i].task.deps && Unfolded(specs)[k].rule == specs[i].task.rule
  {
    var last := |specs| - 1;
    var front := Unfolded(specs[..last]);
    if k < |front| {
      i := UnfoldedHasOrigin(specs[..last], k);
    } else {
      i := last;
      assert Unfolded(specs)[k] == Copies(specs[last])[k - |front|];
    }
  }

  lemma {:induction false} CopyPosition(specs: seq<TaskSpec>, i: nat, j: nat) returns (k: nat)
    requires i < |specs| && j < |Names(specs[i])|
    ensures k < |Unfolded(specs)| && Unfolded(specs)[k] == Copies(specs[i])[j]
    ensures i == |specs| - 1 ==> k == |Unfolded(specs[..i])| + j
  {
    var last := |specs| - 1;
    if i < last {
      k := CopyPosition(specs[..last], i, j);
    } else {
      k := |Unfolded(specs[..last])| + j;
    }
  }

  lemma NameIsUnfolded(specs: seq<TaskSpec>, i: nat, n: string) returns (k: nat)
    requires i < |specs| && NameOf(specs, i, n)
    ensures k < |Unfolded(specs)| && Unfolded(specs)[k].id == n && Unfolded(specs)[k].deps == specs[i].task.deps
    ensures Unfolded(specs)[k].rule == specs[i].task.rule
  {
    var j :| 0 <= j < |Names(specs[i])| && Names(specs[i])[j] == n;
    k := CopyPosition(specs, i, j);
  }

  lemma {:induction false} ShardComesFrom(specs: seq<TaskSpec>, id: string, n: string) returns (i: nat)
    requires n in ShardsOf(specs, id)
    ensures i < |specs| && specs[i].FansOut() && specs[i].task.id == id && NameOf(specs, i, n)
  {
    var last := |specs| - 1;
    if n in ShardsOf(specs[..last], id) {
      i := ShardComesFrom(specs[..last], id, n);
    } else {
      i := last;
    }
  }

  lemma {:induction false} ShardIsListed(specs: seq<TaskSpec>, i: nat, n: string)
    requires i < |specs| && specs[i].FansOut() && NameOf(specs, i, n)
    ensures n in ShardsOf(specs, specs[i].task.id)
  {
    var last := |specs| - 1;
    if i < last {
      ShardIsListed(specs[..last], i, n);
    }
  }

  /** The dependency `d`, as written, becomes the name `m`. */
  ghost predicate Becomes(specs: seq<TaskSpec>, d: string, m: string) {
    if IsFanOut(specs, d) then m in ShardsOf(specs, d) else m == d
  }

  lemma {:induction false} RewrittenMembers(specs: seq<TaskSpec>, deps: seq<string>, m: string)
    ensures m in Rewritten(specs, deps) <==> exists d :: d in deps && Becomes(specs, d, m)
  {
    if |deps| > 0 {
      var last := |deps| - 1;
      RewrittenMembers(specs, deps[..last], m);
      assert deps == deps[..last] + [deps[last]];
      if m in Rewritten(specs, deps) {
        if m !in Rewritten(specs, deps[..last]) {
          assert deps[last] in deps && Becomes(specs, deps[last], m);
        }
      }
      if d :| d in deps && Becomes(specs, d, m) {
        if d in deps[..last] {
          assert m in Rewritten(specs, deps[..last]);
        }
      }
    }
  }

  // ---- the expanded list, task by task ----

  ghost predicate IsShardName(t: TaskSpec, n: string) {
    exists j: nat :: j < |t.items| && n == t.task.id + "_" + Decimal(j)
  }

  /** An ordinary task keeps its id, a foreach task goes by its numbered shards. */
  ghost predicate GoesBy(t: TaskSpec, n: string) {
    if |t.items| == 0 then n == t.task.id else IsShardName(t, n)
  }

  ghost predicate HasShard(t: TaskSpec, d: string, m: string) {
    |t.items| > 0 && t.task.id == d && IsShardName(t, m)
  }

  /** A dependency on a foreach task stands for all its shards, any other for itself. */
  ghost predicate StandsFor(specs: seq<TaskSpec>, d: string, m: string) {
    if exists t :: t in specs && |t.items| > 0 && t.task.id == d
    then exists t :: t in specs && HasShard(t, d, m)
    else m == d
  }

  /** `copy` is what `t` turns into under the name `n`: same rule, each dependency replaced by what it stands for. */
  ghost predicate IsCopy(specs: seq<TaskSpec>, t: TaskSpec, n: string, copy: Task) {
    && copy.id == n && copy.rule == t.task.rule
    && forall m :: m in copy.deps <==> exists d :: d in t.task.deps && StandsFor(specs, d, m)
  }

  lemma GoesByName(t: TaskSpec, n: string)
    ensures GoesBy(t, n) <==> n in Names(t)
  {
    if t.FansOut() && IsShardName(t, n) {
      var j: nat :| j < |t.items| && n == t.task.id + "_" + Decimal(j);
      assert Names(t)[j] == n;
    }
  }

  lemma BecomesStandsFor(specs: seq<TaskSpec>, d: string, m: string)
    ensures Becomes(specs, d, m) <==> StandsFor(specs, d, m)
  {
    if IsFanOut(specs, d) {
      var k :| 0 <= k < |specs| && specs[k].FansOut() && specs[k].task.id == d;
      assert specs[k] in specs;
      if m in ShardsOf(specs, d) {
        var i := ShardComesFrom(specs, d, m);
        GoesByName(specs[i], m);
        assert specs[i] in specs && HasShard(specs[i], d, m);
      }
      if t :| t in specs && HasShard(t, d, m) {
        var i :| 0 <= i < |specs| && specs[i] == t;
        GoesByName(t, m);
        ShardIsListed(specs, i, m);
      }
    }
  }

  lemma RelinkedIsCopy(specs: seq<TaskSpec>, i: nat, k: nat)
    requires i < |specs| && k < |Unfolded(specs)|
    requires Unfolded(specs)[k].deps == specs[i].task.deps && Unfolded(specs)[k].rule == specs[i].task.rule
    ensures IsCopy(specs, specs[i], Unfolded(specs)[k].id, Relinked(specs, Unfolded(specs))[k])
  {
    forall m
      ensures m in Rewritten(specs, specs[i].task.deps)
        <==> exists d :: d in specs[i].task.deps && StandsFor(specs, d, m)
    {
      RewrittenMembers(specs, specs[i].task.deps, m);
      forall d
        ensures Becomes(specs, d, m) <==> StandsFor(specs, d, m)
      {
        BecomesStandsFor(specs, d, m);
      }
    }
  }

  /** Expansion makes nothing but copies of the tasks as written. */
  lemma EveryTaskIsACopy(specs: seq<TaskSpec>, k: nat)
    requires k < |Unfolded(specs)|
    ensures var copy := Relinked(specs, Unfolded(specs))[k];
      exists t :: t in specs && GoesBy(t, copy.id) && IsCopy(specs, t, copy.id, copy)
  {
    var i := UnfoldedHasOrigin(specs, k);
    GoesByName(specs[i], Unfolded(specs)[k].id);
    RelinkedIsCopy(specs, i, k);
    assert specs[i] in specs;
  }

  /** And leaves none out: a task as written has a copy under every name it goes by. */
  lemma EveryNameHasACopy(specs: seq<TaskSpec>, t: TaskSpec, n: string)
    requires t in specs && GoesBy(t, n)
    ensures exists copy :: copy in Relinked(specs, Unfolded(specs)) && IsCopy(specs, t, n, copy)
  {
    var i :| 0 <= i < |specs| && specs[i] == t;
    GoesByName(t, n);
    var k := NameIsUnfolded(specs, i, n);
    RelinkedIsCopy(specs, i, k);
    assert Relinked(specs, Unfolded(specs))[k] in Relinked(specs, Unfolded(specs));
  }

  /** The shards of one task never share a name. */
  lemma ShardNamesDiffer(id: string, i: nat, j: nat)
    requires ShardId(id, i) == ShardId(id, j)
    ensures i == j
  {
    assert ShardId(id, i)[|id| + 1..] == Decimal(i);
    assert ShardId(id, j)[|id| + 1..] == Decimal(j);
    DecimalReadsBack(i);
    DecimalReadsBack(j);
  }

  ghost predicate UniqueBefore(specs: seq<TaskSpec>) {
    DistinctIds(Plain(specs))
  }

  ghost predicate UniqueAfter(specs: seq<TaskSpec>) {
    DistinctIds(Unfolded(specs))
  }

  ghost function GraphBefore(specs: seq<TaskSpec>): Graph {
    Adjacency(Plain(specs))
  }

  ghost function GraphAfter(specs: seq<TaskSpec>): Graph {
    Adjacency(Relinked(specs, Unfolded(specs)))
  }

  /**
   Each copy depends on exactly the names its original's dependencies expand to:
   all shards of a foreach dependency, the dependency itself otherwise.
   */
  lemma EdgesAfter(specs: seq<TaskSpec>, a: string, b: string)
    requires UniqueAfter(specs)
    ensures Edge(GraphAfter(specs), a, b) <==>
      exists i, d :: 0 <= i < |specs| && NameOf(specs, i, a) && d in specs[i].task.deps && Becomes(specs, d, b)
  {
    var out := Relinked(specs, Unfolded(specs));
    assert DistinctIds(out) by {
      forall i, j | 0 <= i < j < |out|
        ensures out[i].id != out[j].id
      {
        assert Unfolded(specs)[i].id != Unfolded(specs)[j].id;
      }
    }
    if Edge(GraphAfter(specs), a, b) {
      AdjacencyKeys(out, a);
      var k :| 0 <= k < |out| && out[k].id == a && Adjacency(out)[a] == out[k].deps;
      var i := UnfoldedHasOrigin(specs, k);
      RewrittenMembers(specs, Unfolded(specs)[k].deps, b);
      var d :| d in Unfolded(specs)[k].deps && Becomes(specs, d, b);
      assert NameOf(specs, i, a) && d in specs[i].task.deps;
    }
    if i, d :| 0 <= i < |specs| && NameOf(specs, i, a) && d in specs[i].task.deps && Becomes(specs, d, b) {
      var k := NameIsUnfolded(specs, i, a);
      AdjacencyOf(out, k);
      RewrittenMembers(specs, Unfolded(specs)[k].deps, b);
    }
  }

  lemma EdgesBefore(specs: seq<TaskSpec>, a: string, b: string)
    requires UniqueBefore(specs)
    ensures Edge(GraphBefore(specs), a, b) <==>
      exists i :: 0 <= i < |specs| && specs[i].task.id == a && b in specs[i].task.deps
  {
    var plain := Plain(specs);
    if Edge(GraphBefore(specs), a, b) {
      AdjacencyKeys(plain, a);
      var k :| 0 <= k < |plain| && plain[k].id == a && Adjacency(plain)[a] == plain[k].deps;
      assert specs[k].task.id == a && b in specs[k].task.deps;
    }
    if i :| 0 <= i < |specs| && specs[i].task.id == a && b in specs[i].task.deps {
      AdjacencyOf(plain, i);
      assert plain[i].id == a;
    }
  }

  /** A representative expanded name of an original id: its first shard, or the id itself. */
  function Lift(specs: seq<TaskSpec>, id: string): string {
    if IsFanOut(specs, id) then ShardId(id, 0) else id
  }

  lemma LiftNames(specs: seq<TaskSpec>, i: nat)
    requires i < |specs| && UniqueBefore(specs)
    ensures NameOf(specs, i, Lift(specs, specs[i].task.id))
    ensures IsFanOut(specs, specs[i].task.id) <==> specs[i].FansOut()
  {
    var id := specs[i].task.id;
    if k :| 0 <= k < |specs| && specs[k].FansOut() && specs[k].task.id == id {
      assert Plain(specs)[k].id == Plain(specs)[i].id;
      assert k == i;
    }
    if specs[i].FansOut() {
      assert Names(specs[i])[0] == ShardId(id, 0);
    } else {
      assert Names(specs[i])[0] == id;
    }
  }

  lemma LiftEdge(specs: seq<TaskSpec>, a: string, b: string)
    requires UniqueBefore(specs) && UniqueAfter(specs) && Edge(GraphBefore(specs), a, b)
    ensures Edge(GraphAfter(specs), Lift(specs, a), Lift(specs, b))
  {
    EdgesBefore(specs, a, b);
    var i :| 0 <= i < |specs| && specs[i].task.id == a && b in specs[i].task.deps;
    LiftNames(specs, i);
    if IsFanOut(specs, b) {
      var j :| 0 <= j < |specs| && specs[j].FansOut() && specs[j].task.id == b;
      LiftNames(specs, j);
      ShardIsListed(specs, j, Lift(specs, b));
    }
    assert Becomes(specs, b, Lift(specs, b));
    EdgesAfter(specs, Lift(specs, a), Lift(specs, b));
  }

  /** No dependency names a shard directly. */
  ghost predicate NoShardNamed(specs: seq<TaskSpec>) {
    forall i, d :: 0 <= i < |specs| && d in specs[i].task.deps && !IsFanOut(specs, d) ==> !IsShard(specs, d)
  }

  ghost predicate IsShard(specs: seq<TaskSpec>, n: string) {
    exists i :: 0 <= i < |specs| && specs[i].FansOut() && NameOf(specs, i, n)
  }

  /** The original behind an expanded name. */
  ghost function Drop(specs: seq<TaskSpec>, n: string): string {
    if IsShard(specs, n) then
      var i :| 0 <= i < |specs| && specs[i].FansOut() && NameOf(specs, i, n);
      specs[i].task.id
    else n
  }

  lemma NamesAreDisjoint(specs: seq<TaskSpec>, i: nat, j: nat, n: string)
    requires i < |specs| && j < |specs| && UniqueAfter(specs)
    requires NameOf(specs, i, n) && NameOf(specs, j, n)
    ensures i == j
  {
    var a :| 0 <= a < |Names(specs[i])| && Names(specs[i])[a] == n;
    var b :| 0 <= b < |Names(specs[j])| && Names(specs[j])[b] == n;
    if i < j {
      CopiesApart(specs, i, a, j, b);
    } else if j < i {
      CopiesApart(specs, j, b, i, a);
    }
  }

  lemma FrontIsUnique(specs: seq<TaskSpec>)
    requires |specs| > 0 && UniqueAfter(specs)
    ensures UniqueAfter(specs[..|specs| - 1])
  {
    var front := Unfolded(specs[..|specs| - 1]);
    forall x, y | 0 <= x < y < |front|
      ensures front[x].id != front[y].id
    {
      assert Unfolded(specs)[x] == front[x] && Unfolded(specs)[y] == front[y];
    }
  }

  lemma LastCopiesApart(specs: seq<TaskSpec>, i: nat, a: nat, b: nat)
    requires i < |specs| - 1 && UniqueAfter(specs)
    requires a < |Names(specs[i])| && b < |Names(specs[|specs| - 1])|
    ensures Names(specs[i])[a] != Names(specs[|specs| - 1])[b]
  {
    var last := |specs| - 1;
    var front, all := Unfolded(specs[..last]), Unfolded(specs);
    assert specs[..last][i] == specs[i];
    var k := CopyPosition(specs[..last], i, a);
    assert all == front + Copies(specs[last]);
    assert all[k] == Copies(specs[i])[a] && all[|front| + b] == Copies(specs[last])[b];
  }

  lemma {:induction false} CopiesApart(specs: seq<TaskSpec>, i: nat, a: nat, j: nat, b: nat)
    requires i < j < |specs| && UniqueAfter(specs)
    requires a < |Names(specs[i])| && b < |Names(specs[j])|
    ensures Names(specs[i])[a] != Names(specs[j])[b]
    decreases |specs|
  {
    var last := |specs| - 1;
    if j < last {
      FrontIsUnique(specs);
      CopiesApart(specs[..last], i, a, j, b);
    } else {
      LastCopiesApart(specs, i, a, b);
    }
  }

  lemma DropNames(specs: seq<TaskSpec>, i: nat, n: string)
    requires i < |specs| && UniqueAfter(specs) && NameOf(specs, i, n)
    ensures Drop(specs, n) == specs[i].task.id
  {
    if IsShard(specs, n) {
      var j :| 0 <= j < |specs| && specs[j].FansOut() && NameOf(specs, j, n) && Drop(specs, n) == specs[j].task.id;
      NamesAreDisjoint(specs, i, j, n);
    }
  }

  /** Expansion never hides a cycle. */
  lemma CycleSurvives(specs: seq<TaskSpec>)
    requires UniqueBefore(specs) && UniqueAfter(specs) && HasCycle(GraphBefore(specs))
    ensures HasCycle(GraphAfter(specs))
  {
    var p :| IsCycle(GraphBefore(specs), p);
    var q := seq(|p|, i requires 0 <= i < |p| => Lift(specs, p[i]));
    forall i: nat | i + 1 < |q|
      ensures StepAt(GraphAfter(specs), q, i)
    {
      assert StepAt(GraphBefore(specs), p, i);
      LiftEdge(specs, p[i], p[i + 1]);
    }
    assert IsCycle(GraphAfter(specs), q);
  }

  function ShardNamer(): seq<TaskSpec> {
    [TaskSpec(Task("a", ["b"], AllSuccess), ["x"]), TaskSpec(Task("b", ["a_0"], AllSuccess), [])]
  }

  lemma ShardNamerShape()
    ensures Unfolded(ShardNamer()) == [Task("a_0", ["b"], AllSuccess), Task("b", ["a_0"], AllSuccess)]
  {
    var specs := ShardNamer();
    assert specs[..1][..0] == [] && specs[..1] == [specs[0]];
    assert ShardId("a", 0) == "a_0";
    assert Copies(specs[0]) == [Task("a_0", ["b"], AllSuccess)];
    assert Copies(specs[1]) == [Task("b", ["a_0"], AllSuccess)];
    assert Unfolded(specs[..1]) == Unfolded(specs[..1][..0]) + Copies(specs[0]);
  }

  lemma ShardNamerHadNoCycle()
    ensures UniqueBefore(ShardNamer()) && !HasCycle(GraphBefore(ShardNamer()))
  {
    var specs := ShardNamer();
    var g := GraphBefore(specs);
    var rank: map<string, nat> := map["a_0" := 0, "b" := 1, "a" := 2];
    assert Plain(specs) == [specs[0].task, specs[1].task];
    forall n | n in rank
      ensures RanksBelow(g, rank, n)
    {
      forall m | m in Succ(g, n)
        ensures m in rank && rank[m] < rank[n]
      {
        assert Edge(g, n, m);
        EdgesBefore(specs, n, m);
      }
    }
    forall n | n in g
      ensures n in rank
    {
      AdjacencyKeys(Plain(specs), n);
    }
    RankedIsAcyclic(g, rank);
  }

  lemma ShardNamerNames()
    ensures NameOf(ShardNamer(), 0, "a_0") && NameOf(ShardNamer(), 1, "b")
    ensures Becomes(ShardNamer(), "a_0", "a_0") && Becomes(ShardNamer(), "b", "b")
  {
    var specs := ShardNamer();
    assert Names(specs[0])[0] == ShardId("a", 0) == "a_0";
    assert Names(specs[1])[0] == "b";
  }

  lemma ShardNamerIsUnique()
    ensures UniqueAfter(ShardNamer()) && !NoShardNamed(ShardNamer())
  {
    var specs := ShardNamer();
    ShardNamerShape();
    ShardNamerNames();
    assert IsShard(specs, "a_0") && "a_0" in specs[1].task.deps && !IsFanOut(specs, "a_0");
  }

  lemma ShardNamerEdges()
    ensures UniqueAfter(ShardNamer())
    ensures Edge(GraphAfter(ShardNamer()), "a_0", "b") && Edge(GraphAfter(ShardNamer()), "b", "a_0")
  {
    var specs := ShardNamer();
    ShardNamerIsUnique();
    ShardNamerNames();
    assert "a_0" in specs[1].task.deps && "b" in specs[0].task.deps;
    EdgesAfter(specs, "a_0", "b");
    EdgesAfter(specs, "b", "a_0");
  }

  lemma ShardNamerGetsACycle()
    ensures var specs := ShardNamer();
      UniqueAfter(specs) && !NoShardNamed(specs) && HasCycle(GraphAfter(specs))
  {
    ShardNamerIsUnique();
    ShardNamerEdges();
    TwoEdgesMakeACycle(GraphAfter(ShardNamer()), "a_0", "b");
  }

  lemma TwoEdgesMakeACycle(g: Graph, a: string, b: string)
    requires Edge(g, a, b) && Edge(g, b, a)
    ensures HasCycle(g)
  {
    WalkSnoc(g, [a], b);
    WalkSnoc(g, [a] + [b], a);
    assert IsCycle(g, [a] + [b] + [a]);
  }

  /** The proviso is needed: a dependency on a shard by name can close a cycle the original graph did not have. */
  lemma NamingAShardCanMakeACycle()
    ensures exists specs ::
      UniqueBefore(specs) && UniqueAfter(specs) && !NoShardNamed(specs)
      && !HasCycle(GraphBefore(specs)) && HasCycle(GraphAfter(specs))
  {
    ShardNamerHadNoCycle();
    ShardNamerGetsACycle();
  }
}
