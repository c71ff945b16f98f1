/**
 The stable sort the scheduler relies on (Go's sort.SliceStable), with the two
 facts that determine its result: order, and unchanged order among equals.
 */
module StableSort {

  ghost predicate Total<T>(leq: (T, T) -> bool, a: T, b: T) {
    leq(a, b) || leq(b, a)
  }

  ghost predicate Chains<T>(leq: (T, T) -> bool, a: T, b: T, c: T) {
    leq(a, b) && leq(b, c) ==> leq(a, c)
  }

  ghost predicate TotalPreorder<T(!new)>(leq: (T, T) -> bool) {
    && (forall a, b {:trigger Total(leq, a, b)} :: Total(leq, a, b))
    && (forall a, b, c {:trigger Chains(leq, a, b, c)} :: Chains(leq, a, b, c))
  }

  ghost predicate Sorted<T>(s: seq<T>, leq: (T, T) -> bool) {
    forall i, j :: 0 <= i < j < |s| ==> leq(s[i], s[j])
  }

  /** The elements of `s` that rank level with `e`, in order. */
  ghost function Level<T>(s: seq<T>, e: T, leq: (T, T) -> bool): seq<T> {
    if |s| == 0 then []
    else
      var last := s[|s| - 1];
      Level(s[..|s| - 1], e, leq) + if leq(last, e) && leq(e, last) then [last] else []
  }

  function Insert<T>(x: T, s: seq<T>, leq: (T, T) -> bool): (r: seq<T>)
    ensures |r| == |s| + 1
  {
    if |s| == 0 || leq(s[|s| - 1], x) then s + [x]
    else Insert(x, s[..|s| - 1], leq) + [s[|s| - 1]]
  }

  function Sort<T>(s: seq<T>, leq: (T, T) -> bool): (r: seq<T>)
    ensures |r| == |s|
  {
    if |s| == 0 then [] else Insert(s[|s| - 1], Sort(s[..|s| - 1], leq), leq)
  }

  lemma {:induction false} InsertMembers<T>(x: T, s: seq<T>, leq: (T, T) -> bool)
    ensures multiset(Insert(x, s, leq)) == multiset(s) + multiset{x}
    ensures forall i :: 0 <= i <= |s| ==> Insert(x, s, leq)[i] == x || Insert(x, s, leq)[i] in s
  {
    if |s| > 0 {
      assert s == s[..|s| - 1] + [s[|s| - 1]];
      if !leq(s[|s| - 1], x) {
        InsertMembers(x, s[..|s| - 1], leq);
      }
    }
  }

  lemma {:induction false} InsertSorted<T(!new)>(x: T, s: seq<T>, leq: (T, T) -> bool)
    requires TotalPreorder(leq) && Sorted(s, leq)
    ensures Sorted(Insert(x, s, leq), leq)
  {
    if |s| > 0 {
      var last := s[|s| - 1];
      var front := s[..|s| - 1];
      assert Total(leq, last, x);
      if leq(last, x) {
        forall i | 0 <= i < |s|
          ensures leq(s[i], x)
        {
          assert i == |s| - 1 || Chains(leq, s[i], last, x);
        }
      } else {
        InsertSorted(x, front, leq);
        InsertMembers(x, front, leq);
        var r := Insert(x, front, leq);
        forall i | 0 <= i < |r|
          ensures leq(r[i], last)
        {
          if r[i] != x {
            var k :| 0 <= k < |front| && front[k] == r[i];
            assert leq(s[k], s[|s| - 1]);
          }
        }
      }
    }
  }

  lemma LevelSnoc<T>(s: seq<T>, x: T, e: T, leq: (T, T) -> bool)
    ensures Level(s + [x], e, leq) == Level(s, e, leq) + if leq(x, e) && leq(e, x) then [x] else []
  {
    assert (s + [x])[..|s|] == s;
  }

  /** Inserting puts the new element last among its equals and moves nothing else. */
  lemma {:induction false} InsertLevel<T(!new)>(x: T, s: seq<T>, e: T, leq: (T, T) -> bool)
    requires TotalPreorder(leq)
    ensures Level(Insert(x, s, leq), e, leq) == Level(s + [x], e, leq)
  {
    LevelSnoc(s, x, e, leq);
    if |s| > 0 && !leq(s[|s| - 1], x) {
      var last := s[|s| - 1];
      var front := s[..|s| - 1];
      InsertLevel(x, front, e, leq);
      LevelSnoc(Insert(x, front, leq), last, e, leq);
      LevelSnoc(front, x, e, leq);
      assert Chains(leq, last, e, x);
    }
  }

  lemma {:induction false} SortIsStable<T(!new)>(s: seq<T>, leq: (T, T) -> bool)
    requires TotalPreorder(leq)
    ensures Sorted(Sort(s, leq), leq)
    ensures multiset(Sort(s, leq)) == multiset(s)
    ensures forall e :: Level(Sort(s, leq), e, leq) == Level(s, e, leq)
  {
    if |s| > 0 {
      var x := s[|s| - 1];
      var front := s[..|s| - 1];
      assert s == front + [x];
      SortIsStable(front, leq);
      InsertSorted(x, Sort(front, leq), leq);
      InsertMembers(x, Sort(front, leq), leq);
      forall e
        ensures Level(Sort(s, leq), e, leq) == Level(s, e, leq)
      {
        InsertLevel(x, Sort(front, leq), e, leq);
        LevelSnoc(Sort(front, leq), x, e, leq);
        LevelSnoc(front, x, e, leq);
      }
    }
  }
}
