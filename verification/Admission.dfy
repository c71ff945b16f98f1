/**
 The tick's admission pass over every ready task (internal/scheduler/scheduler.go,
 admitReady and poolSlots). The store's counts succeed, and nothing else writes rows
 during the pass: pollers can only free slots.
 */
module Admission {
  import opened Sets
  import opened StableSort
  import opened TaskModel

  const DEFAULT_POOL_SLOTS := 16
  const MAX_POOL_SLOTS := 1024

  /** `subdag`: the row's reference points to a child run, so it occupies no executor slot. */
  datatype Row = Row(state: TaskState, pool: string, dag: string, subdag: bool) {
    predicate IsActive() {
      (state.Queued? || state.Running?) && !subdag
    }
  }

  type Rows = map<int, Row>

  /** `dagMax` is the run's max_active_tasks, 0 for none; `group` is empty for local tasks. */
  datatype Candidate = Candidate(id: int, runPriority: int, taskPriority: int, date: int, runID: string, taskID: string,
                                 dag: string, dagMax: int, pool: string, group: string)

  datatype Config = Config(maxTasks: int, pools: map<string, int>, groupsUp: set<string>)

  // ----- rank -----

  predicate LexLeq(a: string, b: string)
    decreases |a|
  {
    |a| == 0 || (|b| > 0 && (a[0] < b[0] || (a[0] == b[0] && LexLeq(a[1..], b[1..]))))
  }

  lemma {:induction false} LexTotal(a: string, b: string)
    ensures LexLeq(a, b) || LexLeq(b, a)
    decreases |a|
  {
    if |a| > 0 && |b| > 0 {
      LexTotal(a[1..], b[1..]);
    }
  }

  lemma {:induction false} LexAntisymmetric(a: string, b: string)
    requires LexLeq(a, b) && LexLeq(b, a)
    ensures a == b
    decreases |a|
  {
    if |a| > 0 {
      LexAntisymmetric(a[1..], b[1..]);
      assert a == [a[0]] + a[1..] && b == [b[0]] + b[1..];
    }
  }

  lemma {:induction false} LexTransitive(a: string, b: string, c: string)
    requires LexLeq(a, b) && LexLeq(b, c)
    ensures LexLeq(a, c)
    decreases |a|
  {
    if |a| > 0 && a[0] == b[0] == c[0] {
      LexTransitive(a[1..], b[1..], c[1..]);
    }
  }

  /** Dictionary order: a proper prefix, or the smaller character at the first difference. */
  ghost predicate Before(a: string, b: string) {
    a < b || exists k :: 0 <= k < |a| && k < |b| && a[..k] == b[..k] && a[k] < b[k]
  }

  lemma SameHead(a: string, b: string, k: nat)
    requires k <= |a| && k <= |b| && a[..k] == b[..k]
    ensures k > 0 ==> a[0] == b[0]
  {
    if k > 0 {
      assert a[..k][0] == b[..k][0];
    }
  }

  lemma {:induction false} BeforeIsLex(a: string, b: string)
    requires Before(a, b)
    ensures LexLeq(a, b) && a != b
    decreases |a|
  {
    if |a| > 0 && a[0] == b[0] {
      if a < b {
        assert b[..|a|] == a;
        assert b[1..][..|a| - 1] == a[1..];
      } else {
        var k :| 0 <= k < |a| && k < |b| && a[..k] == b[..k] && a[k] < b[k];
        assert a[1..][..k - 1] == a[..k][1..] && b[1..][..k - 1] == b[..k][1..];
        assert a[1..][k - 1] < b[1..][k - 1];
      }
      BeforeIsLex(a[1..], b[1..]);
    } else if |a| > 0 && !(a < b) {
      var k :| 0 <= k < |a| && k < |b| && a[..k] == b[..k] && a[k] < b[k];
      SameHead(a, b, k);
    }
  }

  predicate ByName(a: Candidate, b: Candidate) {
    if a.runID != b.runID then LexLeq(a.runID, b.runID) else LexLeq(a.taskID, b.taskID)
  }

  /** Run priority, then task priority, then the older logical date, then the names. */
  predicate Outranks(a: Candidate, b: Candidate) {
    if a.runPriority != b.runPriority then a.runPriority > b.runPriority
    else if a.taskPriority != b.taskPriority then a.taskPriority > b.taskPriority
    else if a.date != b.date then a.date < b.date
    else ByName(a, b)
  }

  lemma ByNameTotal(a: Candidate, b: Candidate)
    ensures ByName(a, b) || ByName(b, a)
  {
    LexTotal(a.runID, b.runID);
    LexTotal(a.taskID, b.taskID);
  }

  lemma ByNameTransitive(a: Candidate, b: Candidate, c: Candidate)
    requires ByName(a, b) && ByName(b, c)
    ensures ByName(a, c)
  {
    if a.runID == b.runID == c.runID {
      LexTransitive(a.taskID, b.taskID, c.taskID);
    } else if a.runID != b.runID && b.runID != c.runID {
      LexTransitive(a.runID, b.runID, c.runID);
      if a.runID == c.runID {
        LexAntisymmetric(a.runID, b.runID);
      }
    }
  }

  lemma OutranksIsTotalPreorder()
    ensures TotalPreorder(Outranks)
  {
    forall a, b
      ensures Total(Outranks, a, b)
    {
      ByNameTotal(a, b);
    }
    forall a, b, c
      ensures Chains(Outranks, a, b, c)
    {
      if ByName(a, b) && ByName(b, c) {
        ByNameTransitive(a, b, c);
      }
    }
  }

  // ----- budgets -----

  function PoolSlots(cfg: Config, pool: string): (n: int)
    ensures 1 <= n <= 1024
    ensures pool !in cfg.pools ==> n == 16
    ensures pool in cfg.pools && 1 <= cfg.pools[pool] <= 1024 ==> n == cfg.pools[pool]
    ensures pool in cfg.pools && cfg.pools[pool] < n ==> n == 1
    ensures pool in cfg.pools && cfg.pools[pool] > n ==> n == 1024
  {
    if pool !in cfg.pools then DEFAULT_POOL_SLOTS
    else if cfg.pools[pool] < 1 then 1
    else if cfg.pools[pool] > MAX_POOL_SLOTS then MAX_POOL_SLOTS
    else cfg.pools[pool]
  }

  function Active(rows: Rows): set<int> {
    set id | id in rows && rows[id].IsActive()
  }

  function InPool(rows: Rows, pool: string): set<int> {
    set id | id in rows && rows[id].IsActive() && rows[id].pool == pool
  }

  function OfDag(rows: Rows, dag: string): set<int> {
    set id | id in rows && rows[id].IsActive() && rows[id].dag == dag
  }

  function Start(rows: Rows, id: int): Rows
    requires id in rows
  {
    rows[id := rows[id].(state := Queued, subdag := false)]
  }

  lemma StartCounts(rows: Rows, id: int, pool: string, dag: string)
    requires id in rows && rows[id].state.Scheduled?
    ensures |Active(Start(rows, id))| == |Active(rows)| + 1
    ensures |InPool(Start(rows, id), pool)| == |InPool(rows, pool)| + if rows[id].pool == pool then 1 else 0
    ensures |OfDag(Start(rows, id), dag)| == |OfDag(rows, dag)| + if rows[id].dag == dag then 1 else 0
  {
    StartActive(rows, id);
    StartInPool(rows, id, pool);
    StartOfDag(rows, id, dag);
  }

  lemma StartActive(rows: Rows, id: int)
    requires id in rows && rows[id].state.Scheduled?
    ensures Active(Start(rows, id)) == Active(rows) + {id} && id !in Active(rows)
  {
  }

  lemma StartInPool(rows: Rows, id: int, pool: string)
    requires id in rows && rows[id].state.Scheduled?
    ensures id !in InPool(rows, pool)
    ensures InPool(Start(rows, id), pool) == InPool(rows, pool) + if rows[id].pool == pool then {id} else {}
  {
  }

  lemma StartOfDag(rows: Rows, id: int, dag: string)
    requires id in rows && rows[id].state.Scheduled?
    ensures id !in OfDag(rows, dag)
    ensures OfDag(Start(rows, id), dag) == OfDag(rows, dag) + if rows[id].dag == dag then {id} else {}
  {
  }

  // ----- the reference: recount every budget for every candidate -----

  predicate GroupUp(cfg: Config, c: Candidate) {
    c.group == "" || c.group in cfg.groupsUp
  }

  predicate Room(cfg: Config, rows: Rows, c: Candidate) {
    && |Active(rows)| < cfg.maxTasks
    && |InPool(rows, c.pool)| < PoolSlots(cfg, c.pool)
    && (c.dagMax > 0 ==> |OfDag(rows, c.dag)| < c.dagMax)
  }

  predicate MayStart(cfg: Config, rows: Rows, c: Candidate) {
    c.id in rows && rows[c.id].state.Scheduled? && GroupUp(cfg, c) && Room(cfg, rows, c)
  }

  function AdmitOne(cfg: Config, rows: Rows, c: Candidate): Rows {
    if MayStart(cfg, rows, c) then Start(rows, c.id) else rows
  }

  function Greedy(cfg: Config, rows: Rows, ready: seq<Candidate>): Rows
    decreases |ready|
  {
    if |ready| == 0 then rows
    else AdmitOne(cfg, Greedy(cfg, rows, ready[..|ready| - 1]), ready[|ready| - 1])
  }

  /** The rows a candidate was collected from: same pool and DAG. */
  predicate Matches(rows: Rows, c: Candidate) {
    c.id in rows ==> rows[c.id].pool == c.pool && rows[c.id].dag == c.dag
  }

  ghost predicate AllMatch(rows: Rows, ready: seq<Candidate>) {
    forall i :: 0 <= i < |ready| ==> Matches(rows, ready[i])
  }

  /** All runs of a DAG were snapshotted with the same task limit. */
  ghost predicate SharedLimits(ready: seq<Candidate>) {
    forall i, j :: 0 <= i < |ready| && 0 <= j < |ready| && ready[i].dag == ready[j].dag ==>
      ready[i].dagMax == ready[j].dagMax
  }

  /** A pass only ever queues scheduled candidates. */
  ghost predicate OnlyQueues(before: Rows, after: Rows, ready: seq<Candidate>) {
    && after.Keys == before.Keys
    && forall id :: id in before ==>
         || after[id] == before[id]
         || (before[id].state.Scheduled? && after == Start(after, id) && after[id].pool == before[id].pool
             && after[id].dag == before[id].dag && exists i :: 0 <= i < |ready| && ready[i].id == id)
  }

  function Max(a: int, b: int): int {
    if a >= b then a else b
  }

  lemma {:induction false} GreedyOnlyQueues(cfg: Config, rows: Rows, ready: seq<Candidate>)
    ensures OnlyQueues(rows, Greedy(cfg, rows, ready), ready)
    decreases |ready|
  {
    if |ready| > 0 {
      var n := |ready| - 1;
      GreedyOnlyQueues(cfg, rows, ready[..n]);
      var mid := Greedy(cfg, rows, ready[..n]);
      var after := Greedy(cfg, rows, ready);
      forall id | id in rows && after[id] != rows[id]
        ensures rows[id].state.Scheduled? && after == Start(after, id)
        ensures exists i :: 0 <= i < |ready| && ready[i].id == id
      {
        if id == ready[n].id && after != mid {
          assert ready[n].id == id;
        } else {
          var i :| 0 <= i < |ready[..n]| && ready[..n][i].id == id;
          assert ready[i].id == id;
        }
      }
    }
  }

  /** No pass pushes a budget past its limit, beyond excess already present. */
  lemma {:induction false} GreedyKeepsBudgets(cfg: Config, rows: Rows, ready: seq<Candidate>, pool: string)
    requires AllMatch(rows, ready)
    ensures var after := Greedy(cfg, rows, ready);
      && |Active(after)| <= Max(cfg.maxTasks, |Active(rows)|)
      && |InPool(after, pool)| <= Max(PoolSlots(cfg, pool), |InPool(rows, pool)|)
    decreases |ready|
  {
    if |ready| > 0 {
      var n := |ready| - 1;
      var c := ready[n];
      GreedyKeepsBudgets(cfg, rows, ready[..n], pool);
      GreedyOnlyQueues(cfg, rows, ready[..n]);
      var mid := Greedy(cfg, rows, ready[..n]);
      assert Matches(rows, c);
      if MayStart(cfg, mid, c) {
        StartCounts(mid, c.id, pool, c.dag);
      }
    }
  }

  lemma {:induction false} GreedyKeepsDagLimit(cfg: Config, rows: Rows, ready: seq<Candidate>, dag: string, limit: int)
    requires AllMatch(rows, ready) && limit > 0
    requires forall i :: 0 <= i < |ready| && ready[i].dag == dag ==> ready[i].dagMax == limit
    ensures |OfDag(Greedy(cfg, rows, ready), dag)| <= Max(limit, |OfDag(rows, dag)|)
    decreases |ready|
  {
    if |ready| > 0 {
      var n := |ready| - 1;
      var c := ready[n];
      GreedyKeepsDagLimit(cfg, rows, ready[..n], dag, limit);
      GreedyOnlyQueues(cfg, rows, ready[..n]);
      var mid := Greedy(cfg, rows, ready[..n]);
      assert Matches(rows, c);
      if MayStart(cfg, mid, c) {
        StartCounts(mid, c.id, c.pool, dag);
      }
    }
  }

  lemma {:induction false} GreedyAppend(cfg: Config, rows: Rows, front: seq<Candidate>, last: seq<Candidate>)
    ensures Greedy(cfg, rows, front + last) == Greedy(cfg, Greedy(cfg, rows, front), last)
    decreases |last|
  {
    if |last| == 0 {
      assert front + last == front;
    } else {
      assert (front + last)[..|front + last| - 1] == front + last[..|last| - 1];
      GreedyAppend(cfg, rows, front, last[..|last| - 1]);
    }
  }

  /** Work in the executor only grows during a pass. */
  lemma {:induction false} GreedyGrows(cfg: Config, rows: Rows, ready: seq<Candidate>, pool: string, dag: string)
    ensures Active(rows) <= Active(Greedy(cfg, rows, ready))
    ensures InPool(rows, pool) <= InPool(Greedy(cfg, rows, ready), pool)
    ensures OfDag(rows, dag) <= OfDag(Greedy(cfg, rows, ready), dag)
    decreases |ready|
  {
    if |ready| > 0 {
      GreedyGrows(cfg, rows, ready[..|ready| - 1], pool, dag);
    }
  }

  /** Once there is no room for a candidate there is none later in the pass. */
  lemma NoRoomStays(cfg: Config, rows: Rows, rest: seq<Candidate>, c: Candidate)
    requires !Room(cfg, rows, c)
    ensures !Room(cfg, Greedy(cfg, rows, rest), c)
  {
    GreedyGrows(cfg, rows, rest, c.pool, c.dag);
    var after := Greedy(cfg, rows, rest);
    SubsetSize(Active(rows), Active(after));
    SubsetSize(InPool(rows, c.pool), InPool(after, c.pool));
    SubsetSize(OfDag(rows, c.dag), OfDag(after, c.dag));
  }

  predicate Waits(rows: Rows, id: int) {
    id in rows && rows[id].state.Scheduled?
  }

  predicate Queues(rows: Rows, id: int) {
    id in rows && rows[id].state.Queued?
  }

  /**
   A candidate left scheduled was held by its worker group, or by a budget that
   existing work and higher-ranked candidates had used up when its turn came.
   */
  lemma HeldForAReason(cfg: Config, rows: Rows, ready: seq<Candidate>, i: nat)
    requires i < |ready| && Waits(Greedy(cfg, rows, ready), ready[i].id)
    ensures var mid := Greedy(cfg, rows, ready[..i]);
      && OnlyQueues(rows, mid, ready[..i])
      && (!GroupUp(cfg, ready[i]) || !Room(cfg, mid, ready[i]))
  {
    var c := ready[i];
    var mid := Greedy(cfg, rows, ready[..i]);
    GreedyOnlyQueues(cfg, rows, ready[..i]);
    assert ready == ready[..i + 1] + ready[i + 1..] && ready[..i + 1][..i] == ready[..i];
    GreedyAppend(cfg, rows, ready[..i + 1], ready[i + 1..]);
    GreedyOnlyQueues(cfg, AdmitOne(cfg, mid, c), ready[i + 1..]);
  }

  ghost predicate DistinctIds(ready: seq<Candidate>) {
    forall i, j :: 0 <= i < j < |ready| ==> ready[i].id != ready[j].id
  }

  /** A candidate that a pass started had room when its turn came. */
  lemma StartedWithRoom(cfg: Config, rows: Rows, ready: seq<Candidate>, j: nat)
    requires DistinctIds(ready) && j < |ready| && Waits(rows, ready[j].id)
    requires Queues(Greedy(cfg, rows, ready), ready[j].id)
    ensures GroupUp(cfg, ready[j]) && Room(cfg, Greedy(cfg, rows, ready[..j]), ready[j])
  {
    var mid := Greedy(cfg, rows, ready[..j]);
    GreedyOnlyQueues(cfg, rows, ready[..j]);
    assert ready == ready[..j + 1] + ready[j + 1..] && ready[..j + 1][..j] == ready[..j];
    GreedyAppend(cfg, rows, ready[..j + 1], ready[j + 1..]);
    GreedyOnlyQueues(cfg, AdmitOne(cfg, mid, ready[j]), ready[j + 1..]);
    assert forall i :: 0 <= i < |ready[..j]| ==> ready[..j][i].id != ready[j].id;
  }

  /** A queued or running task that is not a sub-workflow takes a slot. */
  predicate TakesSlot(rows: Rows, id: int) {
    id in rows && rows[id].state in {Queued, Running} && !rows[id].subdag
  }

  /** Its worker group is up, and the whole system, its pool and its DAG have a slot left for it. */
  ghost predicate HasItsTurn(cfg: Config, rows: Rows, c: Candidate) {
    && (c.group == "" || c.group in cfg.groupsUp)
    && |set id | id in rows && TakesSlot(rows, id)| < cfg.maxTasks
    && |set id | id in rows && TakesSlot(rows, id) && rows[id].pool == c.pool| < PoolSlots(cfg, c.pool)
    && (c.dagMax > 0 ==> |set id | id in rows && TakesSlot(rows, id) && rows[id].dag == c.dag| < c.dagMax)
  }

  lemma SlotsWrittenOut(rows: Rows, pool: string, dag: string)
    ensures Active(rows) == set id | id in rows && TakesSlot(rows, id)
    ensures InPool(rows, pool) == set id | id in rows && TakesSlot(rows, id) && rows[id].pool == pool
    ensures OfDag(rows, dag) == set id | id in rows && TakesSlot(rows, id) && rows[id].dag == dag
  {
  }

  /**
   A waiting candidate is started by the pass exactly when, after the turns of those ranked
   before it, its group is up and every budget it counts against has a slot left.
   */
  lemma TurnDecides(cfg: Config, rows: Rows, ready: seq<Candidate>, i: nat)
    requires DistinctIds(ready) && i < |ready| && Waits(rows, ready[i].id)
    ensures Queues(Greedy(cfg, rows, ready), ready[i].id) <==> HasItsTurn(cfg, Greedy(cfg, rows, ready[..i]), ready[i])
  {
    GreedyOnlyQueues(cfg, rows, ready);
    SlotsWrittenOut(Greedy(cfg, rows, ready[..i]), ready[i].pool, ready[i].dag);
    if Queues(Greedy(cfg, rows, ready), ready[i].id) {
      StartedWithRoom(cfg, rows, ready, i);
    } else {
      HeldForAReason(cfg, rows, ready, i);
    }
  }

  predicate SameResources(c: Candidate, d: Candidate) {
    c.group == d.group && c.pool == d.pool && c.dag == d.dag && c.dagMax == d.dagMax
  }

  lemma NoInversionByPlace(cfg: Config, rows: Rows, ready: seq<Candidate>, i: nat, j: nat)
    requires DistinctIds(ready) && i < j < |ready| && SameResources(ready[i], ready[j])
    requires Waits(rows, ready[i].id) && Waits(rows, ready[j].id)
    requires Queues(Greedy(cfg, rows, ready), ready[j].id)
    ensures Queues(Greedy(cfg, rows, ready), ready[i].id)
  {
    GreedyOnlyQueues(cfg, rows, ready);
    if !Queues(Greedy(cfg, rows, ready), ready[i].id) {
      HeldForAReason(cfg, rows, ready, i);
      StartedWithRoom(cfg, rows, ready, j);
      assert ready[..j] == ready[..i] + ready[i..j];
      GreedyAppend(cfg, rows, ready[..i], ready[i..j]);
      NoRoomStays(cfg, Greedy(cfg, rows, ready[..i]), ready[i..j], ready[i]);
    }
  }

  /** One whole pass. */
  function Admitted(cfg: Config, rows: Rows, ready: seq<Candidate>): Rows {
    Greedy(cfg, rows, Sort(ready, Outranks))
  }

  lemma SortKeepsDistinct(ready: seq<Candidate>)
    requires DistinctIds(ready)
    ensures DistinctIds(Sort(ready, Outranks))
  {
    var sorted := Sort(ready, Outranks);
    OutranksIsTotalPreorder();
    SortIsStable(ready, Outranks);
    forall i, j | 0 <= i < j < |sorted|
      ensures sorted[i].id != sorted[j].id
    {
      if sorted[i].id == sorted[j].id {
        assert sorted[i] in multiset(sorted) && sorted[j] in multiset(sorted);
        var a :| 0 <= a < |ready| && ready[a] == sorted[i];
        var b :| 0 <= b < |ready| && ready[b] == sorted[j];
        TwiceMeansTwo(sorted, i, j);
        OnceOnly(ready, a);
      }
    }
  }

  lemma TwiceMeansTwo(s: seq<Candidate>, i: nat, j: nat)
    requires i < j < |s| && s[i] == s[j]
    ensures multiset(s)[s[i]] >= 2
  {
    assert s == s[..j] + s[j..] && s[..j][i] == s[i] && s[j..][0] == s[j];
    assert s[i] in s[..j] && s[i] in s[j..];
    assert multiset(s) == multiset(s[..j]) + multiset(s[j..]);
  }

  lemma OnceOnly(s: seq<Candidate>, a: nat)
    requires DistinctIds(s) && a < |s|
    ensures multiset(s)[s[a]] == 1
  {
    assert s == s[..a] + [s[a]] + s[a + 1..];
    assert s[a] !in s[..a] && s[a] !in s[a + 1..];
  }

  lemma RankedEarlier(ready: seq<Candidate>, c: Candidate, d: Candidate) returns (i: nat, j: nat)
    requires c in ready && d in ready && !Outranks(d, c)
    ensures i < j < |ready| && Sort(ready, Outranks)[i] == c && Sort(ready, Outranks)[j] == d
  {
    var sorted := Sort(ready, Outranks);
    OutranksIsTotalPreorder();
    SortIsStable(ready, Outranks);
    assert c in multiset(ready) && d in multiset(ready);
    assert c in multiset(sorted) && d in multiset(sorted);
    i :| 0 <= i < |sorted| && sorted[i] == c;
    j :| 0 <= j < |sorted| && sorted[j] == d;
    assert Total(Outranks, c, d);
  }

  /** Higher run priority, else higher task priority, else older date, else first by run and task name. */
  ghost predicate MoreUrgent(c: Candidate, d: Candidate) {
    || c.runPriority > d.runPriority
    || (c.runPriority == d.runPriority
        && (|| c.taskPriority > d.taskPriority
            || (c.taskPriority == d.taskPriority
                && (|| c.date < d.date
                    || (c.date == d.date
                        && (Before(c.runID, d.runID) || (c.runID == d.runID && Before(c.taskID, d.taskID))))))))
  }

  lemma MoreUrgentOutranks(c: Candidate, d: Candidate)
    requires MoreUrgent(c, d)
    ensures !Outranks(d, c)
  {
    if Before(c.runID, d.runID) {
      BeforeIsLex(c.runID, d.runID);
      if LexLeq(d.runID, c.runID) { LexAntisymmetric(c.runID, d.runID); }
    }
    if Before(c.taskID, d.taskID) {
      BeforeIsLex(c.taskID, d.taskID);
      if LexLeq(d.taskID, c.taskID) { LexAntisymmetric(c.taskID, d.taskID); }
    }
  }

  /** No candidate is passed over for a less urgent one that needs the same resources. */
  lemma UrgentGoesFirst(cfg: Config, rows: Rows, ready: seq<Candidate>, c: Candidate, d: Candidate)
    requires DistinctIds(ready) && c in ready && d in ready && SameResources(c, d) && MoreUrgent(c, d)
    requires Waits(rows, c.id) && Waits(rows, d.id) && Queues(Admitted(cfg, rows, ready), d.id)
    ensures Queues(Admitted(cfg, rows, ready), c.id)
  {
    MoreUrgentOutranks(c, d);
    SortKeepsDistinct(ready);
    var i, j := RankedEarlier(ready, c, d);
    NoInversionByPlace(cfg, rows, Sort(ready, Outranks), i, j);
  }

  /** Beyond excess already present, no pass takes more slots than the system, a pool or a DAG has. */
  lemma PassStaysWithinLimits(cfg: Config, rows: Rows, ready: seq<Candidate>, pool: string)
    requires AllMatch(rows, ready)
    ensures
      var after := Admitted(cfg, rows, ready);
      && |set id | id in after && TakesSlot(after, id)| <= Max(cfg.maxTasks, |set id | id in rows && TakesSlot(rows, id)|)
      && |set id | id in after && TakesSlot(after, id) && after[id].pool == pool|
         <= Max(PoolSlots(cfg, pool), |set id | id in rows && TakesSlot(rows, id) && rows[id].pool == pool|)
  {
    SortMembers(ready);
    GreedyKeepsBudgets(cfg, rows, Sort(ready, Outranks), pool);
    SlotsWrittenOut(rows, pool, "");
    SlotsWrittenOut(Admitted(cfg, rows, ready), pool, "");
  }

  // ----- the pass with its budgets counted once and then decremented -----

  class Scheduler {
    const cfg: Config
    var rows: Rows

    constructor (c: Config, r: Rows)
      ensures cfg == c && rows == r
    {
      cfg, rows := c, r;
    }

    method Dispatch(id: int)
      requires id in rows
      modifies this
      ensures rows == Start(old(rows), id)
    {
      rows := rows[id := rows[id].(state := Queued, subdag := false)];
    }

    /** The per-DAG budget, counted at the DAG's first limited candidate. */
    method DagGate(c: Candidate, dags: map<string, int>, ghost sorted: seq<Candidate>)
      returns (dags': map<string, int>, open: bool)
      requires c in sorted && (SharedLimits(sorted) ==> DagsCounted(rows, dags, sorted))
      ensures SharedLimits(sorted) ==> DagsCounted(rows, dags', sorted)
                                       && (open <==> (c.dagMax > 0 ==> |OfDag(rows, c.dag)| < c.dagMax))
      ensures c.dagMax > 0 ==> c.dag in dags'
    {
      dags', open := dags, true;
      if c.dagMax > 0 {
        if c.dag !in dags' {
          dags' := dags'[c.dag := c.dagMax - |OfDag(rows, c.dag)|];
        }
        open := dags'[c.dag] > 0;
      }
    }

    /** One candidate's turn while global slots remain; the budgets come back as they stand after it. */
    method Consider(c: Candidate, global: int, pools: map<string, int>, dags: map<string, int>,
                    ghost sorted: seq<Candidate>, ghost before: Rows)
      returns (global': int, pools': map<string, int>, dags': map<string, int>)
      requires AllMatch(rows, sorted) && c in sorted && global > 0
      requires global == cfg.maxTasks - |Active(rows)| && PoolsCounted(cfg, rows, pools)
      requires SharedLimits(sorted) ==> DagsCounted(rows, dags, sorted)
      requires WithinBudgets(cfg, before, rows)
      modifies this
      ensures AllMatch(rows, sorted)
      ensures global' == cfg.maxTasks - |Active(rows)| && PoolsCounted(cfg, rows, pools')
      ensures SharedLimits(sorted) ==> DagsCounted(rows, dags', sorted) && rows == AdmitOne(cfg, old(rows), c)
      ensures WithinBudgets(cfg, before, rows)
    {
      global', pools', dags' := global, pools, dags;
      if c.group != "" && c.group !in cfg.groupsUp {
        return;
      }
      var open: bool;
      dags', open := DagGate(c, dags, sorted);
      if !open {
        return;
      }
      var rem := if c.pool in pools then pools[c.pool] else PoolSlots(cfg, c.pool) - |InPool(rows, c.pool)|;
      if rem <= 0 {
        pools' := pools'[c.pool := rem];
        return;
      }
      if c.id !in rows || !rows[c.id].state.Scheduled? {
        return;
      }
      assert Matches(rows, c);
      BudgetsAfterStart(cfg, rows, pools, dags', sorted, before, c);
      Dispatch(c.id);
      pools' := pools'[c.pool := rem - 1];
      global' := global - 1;
      if c.dagMax > 0 {
        dags' := dags'[c.dag := dags'[c.dag] - 1];
      }
    }

    /**
     The whole pass. Global and pool budgets hold for any input; when the runs of each
     DAG share one task limit the pass is exactly the reference that recounts everything.
     */
    method AdmitReady(ready: seq<Candidate>)
      requires AllMatch(rows, ready)
      modifies this
      ensures SharedLimits(ready) ==> rows == Admitted(cfg, old(rows), ready)
      ensures WithinBudgets(cfg, old(rows), rows)
    {
      var sorted := Sort(ready, Outranks);
      SortMembers(ready);
      var globalRemaining := cfg.maxTasks - |Active(rows)|;
      var poolRemaining: map<string, int> := map[];
      var dagRemaining: map<string, int> := map[];
      for i := 0 to |sorted|
        invariant AllMatch(rows, sorted)
        invariant globalRemaining == cfg.maxTasks - |Active(rows)| && PoolsCounted(cfg, rows, poolRemaining)
        invariant SharedLimits(sorted) ==> DagsCounted(rows, dagRemaining, sorted)
        invariant SharedLimits(sorted) ==> AsReference(cfg, old(rows), sorted, i, rows)
        invariant WithinBudgets(cfg, old(rows), rows)
      {
        if globalRemaining <= 0 {
          NoMoreTurns(cfg, old(rows), sorted, i, rows);
          return;
        }
        NextTurn(cfg, old(rows), sorted, i, rows);
        globalRemaining, poolRemaining, dagRemaining :=
          Consider(sorted[i], globalRemaining, poolRemaining, dagRemaining, sorted, old(rows));
      }
      assert sorted[..|sorted|] == sorted;
    }
  }

  /** The rows are what the reference makes of the first `i` candidates. */
  ghost predicate AsReference(cfg: Config, before: Rows, sorted: seq<Candidate>, i: nat, rows: Rows)
    requires i <= |sorted|
  {
    rows == Greedy(cfg, before, sorted[..i])
  }

  lemma NextTurn(cfg: Config, before: Rows, sorted: seq<Candidate>, i: nat, rows: Rows)
    requires i < |sorted|
    ensures AsReference(cfg, before, sorted, i, rows)
        ==> AsReference(cfg, before, sorted, i + 1, AdmitOne(cfg, rows, sorted[i]))
  {
    assert sorted[..i + 1][..i] == sorted[..i];
  }

  lemma NoMoreTurns(cfg: Config, before: Rows, sorted: seq<Candidate>, i: nat, rows: Rows)
    requires i < |sorted| && |Active(rows)| >= cfg.maxTasks
    ensures AsReference(cfg, before, sorted, i, rows) ==> rows == Greedy(cfg, before, sorted)
  {
    assert sorted == sorted[..i] + sorted[i..];
    GreedyAppend(cfg, before, sorted[..i], sorted[i..]);
    NothingMoreStarts(cfg, rows, sorted[i..]);
  }

  ghost predicate WithinBudgets(cfg: Config, before: Rows, rows: Rows) {
    && |Active(rows)| <= Max(cfg.maxTasks, |Active(before)|)
    && forall pool :: |InPool(rows, pool)| <= Max(PoolSlots(cfg, pool), |InPool(before, pool)|)
  }

  ghost predicate PoolsCounted(cfg: Config, rows: Rows, poolRemaining: map<string, int>) {
    forall p :: p in poolRemaining ==> poolRemaining[p] == PoolSlots(cfg, p) - |InPool(rows, p)|
  }

  ghost predicate DagsCounted(rows: Rows, dagRemaining: map<string, int>, sorted: seq<Candidate>) {
    forall i :: 0 <= i < |sorted| && sorted[i].dagMax > 0 && sorted[i].dag in dagRemaining ==>
      dagRemaining[sorted[i].dag] == sorted[i].dagMax - |OfDag(rows, sorted[i].dag)|
  }

  lemma SortMembers(ready: seq<Candidate>)
    ensures forall i :: 0 <= i < |ready| ==> Sort(ready, Outranks)[i] in ready
    ensures SharedLimits(ready) ==> SharedLimits(Sort(ready, Outranks))
  {
    var sorted := Sort(ready, Outranks);
    OutranksIsTotalPreorder();
    SortIsStable(ready, Outranks);
    forall i | 0 <= i < |ready|
      ensures sorted[i] in ready
    {
      assert sorted[i] in multiset(sorted);
    }
  }

  lemma {:induction false} NothingMoreStarts(cfg: Config, rows: Rows, rest: seq<Candidate>)
    requires |Active(rows)| >= cfg.maxTasks
    ensures Greedy(cfg, rows, rest) == rows
    decreases |rest|
  {
    if |rest| > 0 {
      NothingMoreStarts(cfg, rows, rest[..|rest| - 1]);
    }
  }

  /** Decrementing the budgets the started task counts against keeps every count true. */
  lemma BudgetsAfterStart(cfg: Config, rows: Rows, pools: map<string, int>, dags: map<string, int>,
                          sorted: seq<Candidate>, before: Rows, c: Candidate)
    requires PoolsCounted(cfg, rows, pools) && AllMatch(rows, sorted) && c in sorted
    requires Waits(rows, c.id) && Matches(rows, c) && WithinBudgets(cfg, before, rows)
    requires |Active(rows)| < cfg.maxTasks && |InPool(rows, c.pool)| < PoolSlots(cfg, c.pool)
    requires c.dagMax > 0 ==> c.dag in dags
    ensures var after := Start(rows, c.id);
      && |Active(after)| == |Active(rows)| + 1
      && AllMatch(after, sorted)
      && WithinBudgets(cfg, before, after)
      && PoolsCounted(cfg, after, pools[c.pool := PoolSlots(cfg, c.pool) - |InPool(rows, c.pool)| - 1])
      && (SharedLimits(sorted) && DagsCounted(rows, dags, sorted) ==>
            DagsCounted(after, if c.dagMax > 0 then dags[c.dag := dags[c.dag] - 1] else dags, sorted))
  {
    StartCounts(rows, c.id, c.pool, c.dag);
    var after := Start(rows, c.id);
    forall p
      ensures |InPool(after, p)| == |InPool(rows, p)| + if p == c.pool then 1 else 0
    {
      StartCounts(rows, c.id, p, c.dag);
    }
    forall d
      ensures |OfDag(after, d)| == |OfDag(rows, d)| + if d == c.dag then 1 else 0
    {
      StartCounts(rows, c.id, c.pool, d);
    }
  }

  /** A pass respects the task limit a DAG's runs share, beyond excess already present. */
  lemma AdmittedKeepsDagLimit(cfg: Config, rows: Rows, ready: seq<Candidate>, c: Candidate)
    requires AllMatch(rows, ready) && SharedLimits(ready) && c in ready && c.dagMax > 0
    ensures |OfDag(Admitted(cfg, rows, ready), c.dag)| <= Max(c.dagMax, |OfDag(rows, c.dag)|)
  {
    SortMembers(ready);
    GreedyKeepsDagLimit(cfg, rows, Sort(ready, Outranks), c.dag, c.dagMax);
  }
}
