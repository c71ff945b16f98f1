/**
 The order in which queued runs may start (internal/scheduler/scheduler.go,
 reorderPriorityQueues).
 */
module QueueOrder {
  import opened StableSort

  datatype QueuedRun = QueuedRun(id: string, dag: string, priority: int, date: int)

  /** Higher priority first, then the older logical date. */
  predicate NotAfter(a: QueuedRun, b: QueuedRun) {
    a.priority > b.priority || (a.priority == b.priority && a.date <= b.date)
  }

  lemma NotAfterIsTotalPreorder()
    ensures TotalPreorder(NotAfter)
  {
  }

  /** The runs of one DAG, in queue order. */
  function OfDag(s: seq<QueuedRun>, dag: string): (r: seq<QueuedRun>)
    ensures forall k :: 0 <= k < |r| ==> r[k].dag == dag && r[k] in s
    ensures |r| <= |s|
  {
    if |s| == 0 then []
    else if s[|s| - 1].dag == dag then OfDag(s[..|s| - 1], dag) + [s[|s| - 1]]
    else OfDag(s[..|s| - 1], dag)
  }

  lemma OfDagSnoc(s: seq<QueuedRun>, x: QueuedRun, dag: string)
    ensures OfDag(s + [x], dag) == if x.dag == dag then OfDag(s, dag) + [x] else OfDag(s, dag)
  {
    assert (s + [x])[..|s|] == s;
  }

  lemma {:induction false} OfDagMonotone(s: seq<QueuedRun>, k: nat, dag: string)
    requires k <= |s|
    ensures OfDag(s[..k], dag) <= OfDag(s, dag)
    decreases |s| - k
  {
    if k == |s| {
      assert s[..k] == s;
    } else {
      assert s[..k + 1] == s[..k] + [s[k]];
      OfDagSnoc(s[..k], s[k], dag);
      OfDagMonotone(s, k + 1, dag);
    }
  }

  ghost predicate SameSlots(s: seq<QueuedRun>, out: seq<QueuedRun>) {
    |out| == |s| && forall i :: 0 <= i < |s| ==> out[i].dag == s[i].dag
  }

  function Wanted(s: seq<QueuedRun>, serial: set<string>, dag: string): seq<QueuedRun> {
    if dag in serial then Sort(OfDag(s, dag), NotAfter) else OfDag(s, dag)
  }

  /** Every slot keeps its DAG; a serial_priority DAG's runs are stably sorted, any other DAG's untouched. */
  ghost predicate Reordered(s: seq<QueuedRun>, serial: set<string>, out: seq<QueuedRun>) {
    SameSlots(s, out) && forall dag :: OfDag(out, dag) == Wanted(s, serial, dag)
  }

  lemma ShortIsSorted(s: seq<QueuedRun>)
    requires |s| < 2
    ensures Sort(s, NotAfter) == s
  {
    if |s| == 1 {
      assert Sort(s[..0], NotAfter) == [];
      assert [] + [s[0]] == s;
    }
  }

  lemma SortKeepsDag(s: seq<QueuedRun>, dag: string)
    requires forall k :: 0 <= k < |s| ==> s[k].dag == dag
    ensures forall k :: 0 <= k < |s| ==> Sort(s, NotAfter)[k].dag == dag
  {
    NotAfterIsTotalPreorder();
    SortIsStable(s, NotAfter);
    forall k | 0 <= k < |s|
      ensures Sort(s, NotAfter)[k].dag == dag
    {
      assert Sort(s, NotAfter)[k] in multiset(Sort(s, NotAfter));
    }
  }

  /** The runs of the queue grouped by DAG. */
  method Group(queued: seq<QueuedRun>, ghost serial: set<string>) returns (byDag: map<string, seq<QueuedRun>>)
    ensures forall r :: r in queued ==> r.dag in byDag
    ensures forall dag :: GroupIs(byDag, queued, serial, false, dag)
  {
    byDag := map[];
    for i := 0 to |queued|
      invariant forall r :: r in queued[..i] ==> r.dag in byDag
      invariant forall dag :: GroupIs(byDag, queued[..i], serial, false, dag)
    {
      var r := queued[i];
      assert queued[..i + 1] == queued[..i] + [r];
      var grown := byDag[r.dag := (if r.dag in byDag then byDag[r.dag] else []) + [r]];
      ghost var seen := queued[..i + 1];
      forall dag
        ensures GroupIs(grown, seen, serial, false, dag)
      {
        assert GroupIs(byDag, queued[..i], serial, false, dag);
        OfDagSnoc(queued[..i], r, dag);
      }
      byDag := grown;
    }
    assert queued[..|queued|] == queued;
  }

  /** A DAG's group as it was collected, or in the order it is wanted in. */
  predicate GroupIs(byDag: map<string, seq<QueuedRun>>, queued: seq<QueuedRun>, serial: set<string>, wanted: bool,
                    dag: string) {
    && (dag in byDag ==> byDag[dag] == if wanted then Wanted(queued, serial, dag) else OfDag(queued, dag))
    && (dag !in byDag ==> OfDag(queued, dag) == [])
  }

  method SortGroup(runs: seq<QueuedRun>, serial: bool) returns (sorted: seq<QueuedRun>, changed: bool)
    ensures sorted == if serial then Sort(runs, NotAfter) else runs
    ensures !changed ==> sorted == runs
  {
    if !serial || |runs| < 2 {
      if serial {
        ShortIsSorted(runs);
      }
      return runs, false;
    }
    return Sort(runs, NotAfter), true;
  }

  method SortGroups(queued: seq<QueuedRun>, serial: set<string>, groups: map<string, seq<QueuedRun>>)
    returns (byDag: map<string, seq<QueuedRun>>, changed: bool)
    requires forall dag :: GroupIs(groups, queued, serial, false, dag)
    ensures byDag.Keys == groups.Keys
    ensures forall dag :: GroupIs(byDag, queued, serial, true, dag)
    ensures !changed ==> byDag == groups
  {
    byDag, changed := groups, false;
    var todo := byDag.Keys;
    while todo != {}
      invariant todo <= byDag.Keys == groups.Keys
      invariant forall dag :: dag in todo ==> byDag[dag] == groups[dag]
      invariant forall dag :: dag in byDag && dag !in todo ==> GroupIs(byDag, queued, serial, true, dag)
      invariant !changed ==> byDag == groups
      decreases todo
    {
      var dag :| dag in todo;
      assert GroupIs(groups, queued, serial, false, dag);
      todo := todo - {dag};
      ghost var was := byDag;
      var runs, sorted := SortGroup(byDag[dag], dag in serial);
      byDag := byDag[dag := runs];
      changed := changed || sorted;
      assert GroupIs(byDag, queued, serial, true, dag);
      forall other | other in byDag && other !in todo
        ensures GroupIs(byDag, queued, serial, true, other)
      {
        assert other != dag ==> GroupIs(was, queued, serial, true, other);
      }
    }
    forall dag
      ensures GroupIs(byDag, queued, serial, true, dag)
    {
      assert GroupIs(groups, queued, serial, false, dag);
    }
  }

  method Reorder(queued: seq<QueuedRun>, serial: set<string>) returns (out: seq<QueuedRun>)
    ensures Reordered(queued, serial, out)
  {
    var groups := Group(queued, serial);
    var byDag, changed := SortGroups(queued, serial, groups);
    if !changed {
      forall dag
        ensures OfDag(queued, dag) == Wanted(queued, serial, dag)
      {
        assert GroupIs(byDag, queued, serial, true, dag) && GroupIs(groups, queued, serial, false, dag);
        assert Sort<QueuedRun>([], NotAfter) == [];
      }
      return queued;
    }
    out := Rebuild(queued, serial, byDag);
  }

  /** `out` is what the DAG's first `n` slots hold, and the index says so. */
  predicate Taken(byDag: map<string, seq<QueuedRun>>, idx: map<string, nat>, n: nat, out: seq<QueuedRun>, dag: string) {
    if dag in byDag then
      (if dag in idx then idx[dag] else 0) == n <= |byDag[dag]| && out == byDag[dag][..n]
    else out == []
  }

  predicate Filled(byDag: map<string, seq<QueuedRun>>, idx: map<string, nat>, done: seq<QueuedRun>, out: seq<QueuedRun>,
                   dag: string) {
    Taken(byDag, idx, |OfDag(done, dag)|, OfDag(out, dag), dag)
  }

  lemma TakeNext(byDag: map<string, seq<QueuedRun>>, idx: map<string, nat>, n: nat, out: seq<QueuedRun>, dag: string)
    requires Taken(byDag, idx, n, out, dag) && dag in byDag && n < |byDag[dag]|
    ensures Taken(byDag, idx[dag := n + 1], n + 1, out + [byDag[dag][n]], dag)
  {
    assert byDag[dag][..n + 1] == byDag[dag][..n] + [byDag[dag][n]];
  }

  /** Filling a slot with its DAG's next run. */
  lemma FillOwn(byDag: map<string, seq<QueuedRun>>, idx: map<string, nat>, done: seq<QueuedRun>, out: seq<QueuedRun>,
                r: QueuedRun, next: QueuedRun, n: nat)
    requires Filled(byDag, idx, done, out, r.dag)
    requires r.dag in byDag && next.dag == r.dag && n == |OfDag(done, r.dag)| < |byDag[r.dag]|
    requires next == byDag[r.dag][n]
    ensures Filled(byDag, idx[r.dag := n + 1], done + [r], out + [next], r.dag)
  {
    OfDagSnoc(done, r, r.dag);
    OfDagSnoc(out, next, r.dag);
    TakeNext(byDag, idx, n, OfDag(out, r.dag), r.dag);
  }

  lemma FillOther(byDag: map<string, seq<QueuedRun>>, idx: map<string, nat>, done: seq<QueuedRun>, out: seq<QueuedRun>,
                  r: QueuedRun, next: QueuedRun, n: nat, dag: string)
    requires Filled(byDag, idx, done, out, dag) && next.dag == r.dag && dag != r.dag
    ensures Filled(byDag, idx[r.dag := n], done + [r], out + [next], dag)
  {
    OfDagSnoc(done, r, dag);
    OfDagSnoc(out, next, dag);
  }

  ghost predicate AllFilled(byDag: map<string, seq<QueuedRun>>, idx: map<string, nat>, done: seq<QueuedRun>,
                            out: seq<QueuedRun>) {
    forall dag :: Filled(byDag, idx, done, out, dag)
  }

  lemma FillSlot(byDag: map<string, seq<QueuedRun>>, idx: map<string, nat>, done: seq<QueuedRun>, out: seq<QueuedRun>,
                 r: QueuedRun, next: QueuedRun)
    requires AllFilled(byDag, idx, done, out)
    requires r.dag in byDag && next.dag == r.dag && |OfDag(done, r.dag)| < |byDag[r.dag]|
    requires next == byDag[r.dag][|OfDag(done, r.dag)|]
    ensures AllFilled(byDag, idx[r.dag := |OfDag(done, r.dag)| + 1], done + [r], out + [next])
  {
    var idx', done', out' := idx[r.dag := |OfDag(done, r.dag)| + 1], done + [r], out + [next];
    forall dag
      ensures Filled(byDag, idx', done', out', dag)
    {
      if dag == r.dag {
        FillOwn(byDag, idx, done, out, r, next, |OfDag(done, r.dag)|);
      } else {
        FillOther(byDag, idx, done, out, r, next, |OfDag(done, r.dag)| + 1, dag);
      }
    }
  }

  /** Each slot takes the next run of its own DAG. */
  method Rebuild(queued: seq<QueuedRun>, serial: set<string>, byDag: map<string, seq<QueuedRun>>)
    returns (out: seq<QueuedRun>)
    requires forall r :: r in queued ==> r.dag in byDag
    requires forall dag :: GroupIs(byDag, queued, serial, true, dag)
    ensures Reordered(queued, serial, out)
  {
    var idx: map<string, nat> := map[];
    out := [];
    for i := 0 to |queued|
      invariant SameSlots(queued[..i], out)
      invariant AllFilled(byDag, idx, queued[..i], out)
    {
      var r := queued[i];
      assert r in queued && queued[..i + 1] == queued[..i] + [r];
      SlotIsFree(queued, serial, byDag, i);
      assert Filled(byDag, idx, queued[..i], out, r.dag);
      var k := if r.dag in idx then idx[r.dag] else 0;
      var next := byDag[r.dag][k];
      FillSlot(byDag, idx, queued[..i], out, r, next);
      out := out + [next];
      idx := idx[r.dag := k + 1];
    }
    assert queued[..|queued|] == queued;
    AllFilledIsReordered(queued, serial, byDag, idx, out);
  }

  lemma AllFilledIsReordered(queued: seq<QueuedRun>, serial: set<string>, byDag: map<string, seq<QueuedRun>>,
                             idx: map<string, nat>, out: seq<QueuedRun>)
    requires forall dag :: GroupIs(byDag, queued, serial, true, dag)
    requires SameSlots(queued, out) && AllFilled(byDag, idx, queued, out)
    ensures Reordered(queued, serial, out)
  {
    forall dag
      ensures OfDag(out, dag) == Wanted(queued, serial, dag)
    {
      assert Filled(byDag, idx, queued, out, dag) && GroupIs(byDag, queued, serial, true, dag);
      assert Sort<QueuedRun>([], NotAfter) == [];
    }
  }

  lemma SlotIsFree(queued: seq<QueuedRun>, serial: set<string>, byDag: map<string, seq<QueuedRun>>, i: nat)
    requires i < |queued| && queued[i].dag in byDag
    requires GroupIs(byDag, queued, serial, true, queued[i].dag)
    ensures var k := |OfDag(queued[..i], queued[i].dag)|;
      k < |byDag[queued[i].dag]| && byDag[queued[i].dag][k].dag == queued[i].dag
  {
    var dag := queued[i].dag;
    assert queued[..i + 1] == queued[..i] + [queued[i]];
    OfDagSnoc(queued[..i], queued[i], dag);
    OfDagMonotone(queued, i + 1, dag);
    SortKeepsDag(OfDag(queued, dag), dag);
  }

  // ----- what the contract determines -----

  lemma {:induction false} SlotsAndOrderDetermine(a: seq<QueuedRun>, b: seq<QueuedRun>)
    requires SameSlots(a, b) && forall dag :: OfDag(a, dag) == OfDag(b, dag)
    ensures a == b
    decreases |a|
  {
    if |a| > 0 {
      var n := |a| - 1;
      var dag := a[n].dag;
      assert OfDag(a, dag) == OfDag(a[..n], dag) + [a[n]];
      assert OfDag(b, dag) == OfDag(b[..n], dag) + [b[n]];
      assert OfDag(a, dag)[|OfDag(a, dag)| - 1] == a[n] && OfDag(b, dag)[|OfDag(b, dag)| - 1] == b[n];
      forall d
        ensures OfDag(a[..n], d) == OfDag(b[..n], d)
      {
        assert OfDag(a, d) == OfDag(b, d);
        DropLast(a, b, n, d);
      }
      SlotsAndOrderDetermine(a[..n], b[..n]);
      assert a == a[..n] + [a[n]] && b == b[..n] + [b[n]];
    }
  }

  lemma DropLast(a: seq<QueuedRun>, b: seq<QueuedRun>, n: nat, d: string)
    requires |a| == |b| == n + 1 && a[n].dag == b[n].dag && OfDag(a, d) == OfDag(b, d)
    ensures OfDag(a[..n], d) == OfDag(b[..n], d)
  {
    if a[n].dag == d {
      assert OfDag(a[..n], d) == OfDag(a, d)[..|OfDag(a, d)| - 1];
      assert OfDag(b[..n], d) == OfDag(b, d)[..|OfDag(b, d)| - 1];
    }
  }

  /** The reordered queue is determined by the queue. */
  lemma ReorderedIsUnique(s: seq<QueuedRun>, serial: set<string>, a: seq<QueuedRun>, b: seq<QueuedRun>)
    requires Reordered(s, serial, a) && Reordered(s, serial, b)
    ensures a == b
  {
    SlotsAndOrderDetermine(a, b);
  }

  lemma {:induction false} CountByDag(s: seq<QueuedRun>, r: QueuedRun)
    ensures multiset(s)[r] == multiset(OfDag(s, r.dag))[r]
    decreases |s|
  {
    if |s| > 0 {
      assert s == s[..|s| - 1] + [s[|s| - 1]];
      CountByDag(s[..|s| - 1], r);
    }
  }

  /** No run is lost or repeated. */
  lemma ReorderedIsPermutation(s: seq<QueuedRun>, serial: set<string>, out: seq<QueuedRun>)
    requires Reordered(s, serial, out)
    ensures multiset(out) == multiset(s)
  {
    forall r
      ensures multiset(out)[r] == multiset(s)[r]
    {
      CountByDag(out, r);
      CountByDag(s, r);
      NotAfterIsTotalPreorder();
      SortIsStable(OfDag(s, r.dag), NotAfter);
      assert OfDag(out, r.dag) == Wanted(s, serial, r.dag);
    }
  }

  lemma {:induction false} OfDagKeepsOrder(s: seq<QueuedRun>, i: nat, j: nat)
    requires i < j < |s| && s[i].dag == s[j].dag && Sorted(OfDag(s, s[i].dag), NotAfter)
    ensures NotAfter(s[i], s[j])
    decreases |s|
  {
    var n := |s| - 1;
    var dag := s[i].dag;
    var front := OfDag(s[..n], dag);
    if j < n {
      assert forall a, b :: 0 <= a < b < |front| ==> OfDag(s, dag)[a] == front[a] && OfDag(s, dag)[b] == front[b];
      OfDagKeepsOrder(s[..n], i, j);
    } else {
      OfDagHas(s[..n], i);
      var a :| 0 <= a < |front| && front[a] == s[i];
      assert OfDag(s, dag)[a] == s[i] && OfDag(s, dag)[|front|] == s[j];
    }
  }

  lemma {:induction false} OfDagHas(s: seq<QueuedRun>, i: nat)
    requires i < |s|
    ensures s[i] in OfDag(s, s[i].dag)
    decreases |s|
  {
    if i < |s| - 1 {
      OfDagHas(s[..|s| - 1], i);
    }
  }

  /** In a serial_priority DAG an earlier slot never holds a less urgent run; equals keep their order. */
  lemma SerialQueuesDrainUrgentFirst(s: seq<QueuedRun>, serial: set<string>, out: seq<QueuedRun>, i: nat, j: nat)
    requires Reordered(s, serial, out) && i < j < |out| && out[i].dag == out[j].dag && out[i].dag in serial
    ensures out[i].priority > out[j].priority || (out[i].priority == out[j].priority && out[i].date <= out[j].date)
    ensures Level(OfDag(out, out[i].dag), out[i], NotAfter) == Level(OfDag(s, out[i].dag), out[i], NotAfter)
  {
    NotAfterIsTotalPreorder();
    SortIsStable(OfDag(s, out[i].dag), NotAfter);
    assert OfDag(out, out[i].dag) == Wanted(s, serial, out[i].dag);
    OfDagKeepsOrder(out, i, j);
  }
}
