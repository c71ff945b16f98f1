/**
 Schedule-triggered runs and backfills of one DAG (internal/scheduler/scheduler.go,
 createDueRuns, scheduleAnchor, Backfill). The schedule is any infinite set of points
 given by its least-point-after function; times are nanoseconds. The DAG has catchup
 on, its schedule does not change and its runs are not pruned.
 */
module ScheduleRuns {

  const SECOND := 1_000_000_000
  const MAX_BACKFILL_RUNS := 500

  // ----- schedules -----

  predicate Steady(next: int -> int, t: int, u: int) {
    next(t) > t && (t <= u < next(t) ==> next(u) == next(t))
  }

  /** `next` gives the least schedule point after a time. */
  ghost predicate IsSchedule(next: int -> int) {
    forall t, u {:trigger Steady(next, t, u)} :: Steady(next, t, u)
  }

  predicate IsPoint(next: int -> int, p: int) {
    next(p - 1) == p
  }

  /** The k-th point after `base`. */
  function Point(next: int -> int, base: int, k: nat): int {
    if k == 0 then next(base) else next(Point(next, base, k - 1))
  }

  function FirstPoints(next: int -> int, base: int, k: nat): set<int> {
    if k == 0 then {} else FirstPoints(next, base, k - 1) + {Point(next, base, k - 1)}
  }

  lemma NextIsLeastPoint(next: int -> int, t: int, p: int)
    requires IsSchedule(next)
    ensures next(t) > t && IsPoint(next, next(t))
    ensures IsPoint(next, p) && p > t ==> p >= next(t)
  {
    assert Steady(next, t, next(t) - 1);
    assert Steady(next, t, p - 1);
    assert Steady(next, p - 1, p - 1);
  }

  /** The first k points are exactly the points after `base` that come before the next one: no gap. */
  lemma {:induction false} FirstPointsAreAll(next: int -> int, base: int, k: nat, p: int)
    requires IsSchedule(next)
    ensures p in FirstPoints(next, base, k) <==> IsPoint(next, p) && base < p < Point(next, base, k)
    decreases k
  {
    if k == 0 {
      NextIsLeastPoint(next, base, p);
    } else {
      var q := Point(next, base, k - 1);
      FirstPointsAreAll(next, base, k - 1, p);
      NextIsLeastPoint(next, q, p);
      PointsArePoints(next, base, k - 1);
    }
  }

  lemma {:induction false} PointsArePoints(next: int -> int, base: int, k: nat)
    requires IsSchedule(next)
    ensures IsPoint(next, Point(next, base, k)) && Point(next, base, k) > base
    ensures k > 0 ==> Point(next, base, k - 1) < Point(next, base, k)
    decreases k
  {
    NextIsLeastPoint(next, if k == 0 then base else Point(next, base, k - 1), 0);
    if k > 0 {
      PointsArePoints(next, base, k - 1);
    }
  }

  lemma {:induction false} PointsIncrease(next: int -> int, base: int, j: nat, k: nat)
    requires IsSchedule(next) && j <= k
    ensures Point(next, base, j) <= Point(next, base, k)
    decreases k
  {
    if j < k {
      PointsArePoints(next, base, k);
      PointsIncrease(next, base, j, k - 1);
    }
  }

  // ----- the DAG's runs -----

  datatype Trigger = BySchedule | ByOther

  datatype Phase = Queued | Running | Finished

  datatype DagRun = DagRun(trigger: Trigger, phase: Phase)

  datatype Config = Config(start: int, maxActive: int, queueLimit: int) {
    /** The anchor before any scheduled run exists. */
    function Base(): int {
      start - SECOND
    }
  }

  /** Runs by logical date, which is unique within the DAG; `elsewhere` are the other DAGs' queued runs. */
  datatype System = System(now: int, runs: map<int, DagRun>, elsewhere: nat)

  function Scheduled(runs: map<int, DagRun>): set<int> {
    set d | d in runs && runs[d].trigger.BySchedule?
  }

  function Active(runs: map<int, DagRun>): set<int> {
    set d | d in runs && !runs[d].phase.Finished?
  }

  function InQueue(runs: map<int, DagRun>): set<int> {
    set d | d in runs && runs[d].phase.Queued?
  }

  predicate QueueFull(c: Config, s: System) {
    |InQueue(s.runs)| + s.elsewhere >= c.queueLimit
  }

  /** CreateDagRunBounded: nothing is inserted when the queue is full or the date is taken. */
  function Create(c: Config, s: System, date: int, kind: Trigger): System {
    if QueueFull(c, s) || date in s.runs then s else s.(runs := s.runs[date := DagRun(kind, Phase.Queued)])
  }

  lemma SomeMember(dates: set<int>)
    ensures dates == {} || exists d :: d in dates
  {
    if forall d :: d !in dates {
      assert dates == {};
    }
  }

  ghost predicate IsLatest(dates: set<int>, m: int) {
    m in dates && forall d :: d in dates ==> d <= m
  }

  lemma LatestOfMore(rest: set<int>, x: int, m: int)
    requires rest == {} || IsLatest(rest, m)
    ensures IsLatest(rest + {x}, if rest == {} || x > m then x else m)
  {
  }

  lemma {:induction false} HasLatest(dates: set<int>) returns (m: int)
    requires dates != {}
    ensures IsLatest(dates, m)
    decreases |dates|
  {
    SomeMember(dates);
    var x :| x in dates;
    var rest := dates - {x};
    var top := x;
    if rest != {} {
      top := HasLatest(rest);
    }
    LatestOfMore(rest, x, top);
    assert rest + {x} == dates;
    m := if rest == {} || x > top then x else top;
  }

  lemma LatestExists(dates: set<int>)
    requires dates != {}
    ensures exists m :: IsLatest(dates, m)
  {
    var m := HasLatest(dates);
  }

  ghost function Latest(dates: set<int>): (m: int)
    requires |dates| > 0
    ensures m in dates && forall d :: d in dates ==> d <= m
  {
    LatestExists(dates);
    var m :| IsLatest(dates, m);
    m
  }

  ghost function Anchor(c: Config, runs: map<int, DagRun>): int {
    if |Scheduled(runs)| == 0 then c.Base() else Latest(Scheduled(runs))
  }

  datatype Step =
    | Elapse(nanos: nat)
    | Elsewhere(queued: nat)
    | Tick(paused: bool)
    | OtherRun(date: int)
    | Advance(date: int, phase: Phase)

  ghost function CreateDue(next: int -> int, c: Config, s: System, paused: bool): System {
    var due := next(Anchor(c, s.runs));
    if paused || s.now < due || |Active(s.runs)| >= c.maxActive then s else Create(c, s, due, BySchedule)
  }

  ghost function Next(next: int -> int, c: Config, s: System, step: Step): System {
    match step
    case Elapse(nanos) => s.(now := s.now + nanos)
    case Elsewhere(queued) => s.(elsewhere := queued)
    case Tick(paused) => CreateDue(next, c, s, paused)
    case OtherRun(date) => Create(c, s, date, ByOther)
    case Advance(date, phase) => if date in s.runs then s.(runs := s.runs[date := s.runs[date].(phase := phase)]) else s
  }

  ghost function Run(next: int -> int, c: Config, s: System, steps: seq<Step>): System
    decreases |steps|
  {
    if |steps| == 0 then s else Run(next, c, Next(next, c, s, steps[0]), steps[1..])
  }

  /** The scheduled runs are the first `k` points, and each was due when it was created. */
  ghost predicate Prefix(next: int -> int, c: Config, s: System, k: nat) {
    && Scheduled(s.runs) == FirstPoints(next, c.Base(), k)
    && forall d :: d in Scheduled(s.runs) ==> d <= s.now
  }

  lemma {:induction false} LastIsGreatest(next: int -> int, base: int, k: nat, d: int)
    requires IsSchedule(next) && k > 0 && d in FirstPoints(next, base, k)
    ensures Point(next, base, k - 1) in FirstPoints(next, base, k) && d <= Point(next, base, k - 1)
    decreases k
  {
    if k > 1 {
      PointsArePoints(next, base, k - 1);
      if d in FirstPoints(next, base, k - 1) {
        LastIsGreatest(next, base, k - 1, d);
      }
    }
  }

  lemma AnchorOfPrefix(next: int -> int, c: Config, s: System, k: nat)
    requires IsSchedule(next) && Prefix(next, c, s, k)
    ensures next(Anchor(c, s.runs)) == Point(next, c.Base(), k)
  {
    var dates := Scheduled(s.runs);
    if k > 0 {
      var last := Point(next, c.Base(), k - 1);
      assert last in dates;
      LastIsGreatest(next, c.Base(), k, Latest(dates));
      assert Latest(dates) == last;
    }
  }

  lemma CreateScheduled(c: Config, s: System, date: int, kind: Trigger)
    ensures Scheduled(Create(c, s, date, kind).runs) ==
            if kind.BySchedule? && !QueueFull(c, s) && date !in s.runs then Scheduled(s.runs) + {date}
            else Scheduled(s.runs)
  {
    var t := Create(c, s, date, kind);
    assert forall d :: d in t.runs <==> d in s.runs || (d == date && !QueueFull(c, s));
    assert forall d :: d in s.runs ==> t.runs[d] == s.runs[d];
  }

  /** What holds a due run back: the exact condition under which a tick creates it. */
  ghost predicate MayCreate(c: Config, s: System, due: int, paused: bool) {
    && !paused && due <= s.now && due !in s.runs
    && |set d | d in s.runs && (s.runs[d].phase == Phase.Queued || s.runs[d].phase == Running)| < c.maxActive
    && |set d | d in s.runs && s.runs[d].phase == Phase.Queued| + s.elsewhere < c.queueLimit
  }

  lemma CountsWrittenOut(runs: map<int, DagRun>)
    ensures Active(runs) == set d | d in runs && (runs[d].phase == Phase.Queued || runs[d].phase == Running)
    ensures InQueue(runs) == set d | d in runs && runs[d].phase == Phase.Queued
  {
  }

  /** Beyond excess already there, no insert takes the queue past its limit, and no tick the DAG past its own. */
  lemma LimitsHold(next: int -> int, c: Config, s: System, date: int, paused: bool)
    ensures
      var t := Next(next, c, s, OtherRun(date));
      |set d | d in t.runs && t.runs[d].phase == Phase.Queued| + s.elsewhere
      <= Most(c.queueLimit, |set d | d in s.runs && s.runs[d].phase == Phase.Queued| + s.elsewhere)
    ensures
      var t := Next(next, c, s, Tick(paused));
      && |set d | d in t.runs && t.runs[d].phase == Phase.Queued| + s.elsewhere
         <= Most(c.queueLimit, |set d | d in s.runs && s.runs[d].phase == Phase.Queued| + s.elsewhere)
      && |set d | d in t.runs && (t.runs[d].phase == Phase.Queued || t.runs[d].phase == Running)|
         <= Most(c.maxActive, |set d | d in s.runs && (s.runs[d].phase == Phase.Queued || s.runs[d].phase == Running)|)
  {
    CountsWrittenOut(s.runs);
    CountsWrittenOut(Next(next, c, s, OtherRun(date)).runs);
    CountsWrittenOut(Next(next, c, s, Tick(paused)).runs);
    CreateCounts(c, s, date, ByOther);
    CreateCounts(c, s, next(Anchor(c, s.runs)), BySchedule);
  }

  function Most(a: int, b: int): int {
    if a >= b then a else b
  }

  lemma CreateCounts(c: Config, s: System, date: int, kind: Trigger)
    ensures
      var t := Create(c, s, date, kind);
      && (t != s ==> !QueueFull(c, s))
      && |InQueue(t.runs)| == |InQueue(s.runs)| + (if t != s then 1 else 0)
      && |Active(t.runs)| == |Active(s.runs)| + (if t != s then 1 else 0)
  {
    var t := Create(c, s, date, kind);
    if !QueueFull(c, s) && date !in s.runs {
      assert date in t.runs;
      assert InQueue(t.runs) == InQueue(s.runs) + {date};
      assert Active(t.runs) == Active(s.runs) + {date};
    }
  }

  /** A tick adds the next point exactly when it may, and otherwise changes nothing. */
  lemma TickAddsTheNextPoint(next: int -> int, c: Config, s: System, k: nat, paused: bool)
    requires IsSchedule(next) && Prefix(next, c, s, k)
    ensures var due := Point(next, c.Base(), k);
      var t := Next(next, c, s, Tick(paused));
      && Prefix(next, c, t, if MayCreate(c, s, due, paused) then k + 1 else k)
      && (!MayCreate(c, s, due, paused) ==> t == s)
      && (MayCreate(c, s, due, paused) ==> t.runs == s.runs[due := DagRun(BySchedule, Phase.Queued)])
  {
    AnchorOfPrefix(next, c, s, k);
    TickTakes(next, c, s, paused);
    if MayCreate(c, s, Point(next, c.Base(), k), paused) {
      InsertExtendsPrefix(next, c, s, k);
    }
  }

  /** A tick inserts the point after the anchor when it may. */
  lemma TickTakes(next: int -> int, c: Config, s: System, paused: bool)
    ensures var due := next(Anchor(c, s.runs));
      Next(next, c, s, Tick(paused)) ==
      if MayCreate(c, s, due, paused) then s.(runs := s.runs[due := DagRun(BySchedule, Phase.Queued)]) else s
  {
    CountsWrittenOut(s.runs);
  }

  lemma InsertExtendsPrefix(next: int -> int, c: Config, s: System, k: nat)
    requires Prefix(next, c, s, k) && Point(next, c.Base(), k) <= s.now && Point(next, c.Base(), k) !in s.runs
    ensures Prefix(next, c, s.(runs := s.runs[Point(next, c.Base(), k) := DagRun(BySchedule, Phase.Queued)]), k + 1)
  {
    var due := Point(next, c.Base(), k);
    var runs := s.runs[due := DagRun(BySchedule, Phase.Queued)];
    assert Scheduled(runs) == Scheduled(s.runs) + {due};
    assert FirstPoints(next, c.Base(), k + 1) == FirstPoints(next, c.Base(), k) + {due};
  }

  lemma StepKeepsPrefix(next: int -> int, c: Config, s: System, step: Step, k: nat) returns (k': nat)
    requires IsSchedule(next) && Prefix(next, c, s, k)
    ensures k' >= k && Prefix(next, c, Next(next, c, s, step), k')
  {
    k' := k;
    match step
    case Tick(paused) =>
      TickAddsTheNextPoint(next, c, s, k, paused);
      if MayCreate(c, s, Point(next, c.Base(), k), paused) {
        k' := k + 1;
      }
    case OtherRun(date) => CreateScheduled(c, s, date, ByOther);
    case Advance(date, phase) =>
      assert Scheduled(Next(next, c, s, step).runs) == Scheduled(s.runs);
    case _ =>
  }

  /**
   In every run the schedule-triggered runs are exactly the first k points from the
   start on, with no gap and no repeat, none created before its time.
   */
  lemma {:induction false} ScheduledRunsAreAPrefix(next: int -> int, c: Config, s: System, k: nat, steps: seq<Step>)
    returns (k': nat)
    requires IsSchedule(next) && Prefix(next, c, s, k)
    ensures k' >= k && Prefix(next, c, Run(next, c, s, steps), k')
    decreases |steps|
  {
    k' := k;
    if |steps| > 0 {
      var j := StepKeepsPrefix(next, c, s, steps[0], k);
      k' := ScheduledRunsAreAPrefix(next, c, Next(next, c, s, steps[0]), j, steps[1..]);
    }
  }

  /** "From start_date on" is exact for schedules without a point in the second before it, such as whole-second ones. */
  lemma FirstPointIsFromStart(next: int -> int, c: Config)
    requires IsSchedule(next)
    ensures Point(next, c.Base(), 0) == next(c.start - 1)
            <==> !exists p :: IsPoint(next, p) && c.start - 1_000_000_000 < p < c.start
  {
    var first := next(c.Base());
    NextIsLeastPoint(next, c.Base(), next(c.start - 1));
    NextIsLeastPoint(next, c.start - 1, first);
    if first < c.start {
      assert IsPoint(next, first) && c.start - SECOND < first < c.start;
    } else {
      forall p | IsPoint(next, p)
        ensures !(c.start - SECOND < p < c.start)
      {
        NextIsLeastPoint(next, c.Base(), p);
      }
    }
  }

  lemma TakenDateStays(next: int -> int, c: Config, s: System, step: Step, due: int)
    requires due in s.runs && s.runs[due].trigger.ByOther?
    ensures due in Next(next, c, s, step).runs && Next(next, c, s, step).runs[due].trigger.ByOther?
  {
  }

  /** A run of another kind on the next point stops the schedule for good: every later tick finds the date taken. */
  lemma {:induction false} TakenDateStopsTheSchedule(next: int -> int, c: Config, s: System, k: nat, steps: seq<Step>)
    requires IsSchedule(next) && Prefix(next, c, s, k)
    requires var due := Point(next, c.Base(), k); due in s.runs && s.runs[due].trigger.ByOther?
    ensures Prefix(next, c, Run(next, c, s, steps), k)
    decreases |steps|
  {
    if |steps| > 0 {
      var due := Point(next, c.Base(), k);
      TakenDateStays(next, c, s, steps[0], due);
      StepKeepsTaken(next, c, s, steps[0], k);
      TakenDateStopsTheSchedule(next, c, Next(next, c, s, steps[0]), k, steps[1..]);
    }
  }

  lemma StepKeepsTaken(next: int -> int, c: Config, s: System, step: Step, k: nat)
    requires IsSchedule(next) && Prefix(next, c, s, k) && Point(next, c.Base(), k) in s.runs
    ensures Prefix(next, c, Next(next, c, s, step), k)
  {
    match step
    case Tick(paused) => TickAddsTheNextPoint(next, c, s, k, paused);
    case OtherRun(date) => CreateScheduled(c, s, date, ByOther);
    case Advance(date, phase) =>
      assert Scheduled(Next(next, c, s, step).runs) == Scheduled(s.runs);
    case _ =>
  }

  /** Another kind of run takes the first point, finishes, and the point falls due. */
  function Stopping(due: int): seq<Step> {
    [OtherRun(due), Advance(due, Finished), Elapse(if due > 0 then due else 0)]
  }

  function Stopped(due: int): System {
    System(if due > 0 then due else 0, map[due := DagRun(ByOther, Finished)], 0)
  }

  lemma RunThree(next: int -> int, c: Config, s: System, a: Step, b: Step, d: Step)
    ensures Run(next, c, s, [a, b, d]) == Next(next, c, Next(next, c, Next(next, c, s, a), b), d)
  {
    var s1 := Next(next, c, s, a);
    var s2 := Next(next, c, s1, b);
    assert [a, b, d][1..] == [b, d] && [b, d][1..] == [d] && [d][1..] == [];
    assert Run(next, c, s2, [d]) == Run(next, c, Next(next, c, s2, d), []);
    assert Run(next, c, s1, [b, d]) == Run(next, c, s2, [d]);
  }

  lemma StoppingRun(next: int -> int, c: Config, due: int)
    requires c.queueLimit > 0
    ensures Run(next, c, System(0, map[], 0), Stopping(due)) == Stopped(due)
  {
    var s := System(0, map[], 0);
    assert InQueue(s.runs) == {};
    RunThree(next, c, s, OtherRun(due), Advance(due, Finished), Elapse(if due > 0 then due else 0));
    var queued, finished := DagRun(ByOther, Phase.Queued), DagRun(ByOther, Finished);
    assert map[due := queued][due := finished] == map[due := finished];
  }

  /**
   The schedule can stop: a run is reached in which the first point is due, nothing is
   active or queued, and a tick creates nothing, then or after any further steps.
   */
  lemma ScheduleCanStop(next: int -> int, c: Config, more: seq<Step>)
    requires IsSchedule(next) && c.queueLimit > 0 && c.maxActive > 0
    ensures var due := Point(next, c.Base(), 0);
      var s := Run(next, c, System(0, map[], 0), Stopping(due));
      && due <= s.now && |Active(s.runs)| < c.maxActive && !QueueFull(c, s)
      && Next(next, c, s, Tick(false)) == s
      && Scheduled(Run(next, c, s, more).runs) == {}
  {
    var due := Point(next, c.Base(), 0);
    var s := Stopped(due);
    StoppingRun(next, c, due);
    assert Active(s.runs) == {} && InQueue(s.runs) == {} && Scheduled(s.runs) == {};
    assert Prefix(next, c, s, 0);
    TickAddsTheNextPoint(next, c, s, 0, false);
    TakenDateStopsTheSchedule(next, c, s, 0, more);
  }

  // ----- backfill -----

  /** The first `n` points after `t`, in order. */
  function PointsFrom(next: int -> int, t: int, n: nat): (ps: seq<int>)
    ensures |ps| == n
    decreases n
  {
    if n == 0 then [] else PointsFrom(next, t, n - 1) + [Point(next, t, n - 1)]
  }

  lemma {:induction false} PointsFromMembers(next: int -> int, t: int, n: nat, p: int)
    ensures p in PointsFrom(next, t, n) <==> p in FirstPoints(next, t, n)
    decreases n
  {
    if n > 0 {
      PointsFromMembers(next, t, n - 1, p);
    }
  }

  datatype Backfilled =
    | EmptyWindow
    | TooManyPeriods
    | QueueLimit(created: nat, skipped: nat)
    | Enqueued(created: nat, skipped: nat)

  function Least(a: int, b: int): int {
    if a <= b then a else b
  }

  /** The periods of a window: every point after one second before `from`, up to `until` or now. */
  predicate InWindow(next: int -> int, now: int, from: int, until: int, p: int) {
    IsPoint(next, p) && from - SECOND < p <= Least(until, now)
  }

  /** Old runs stay, and every new one is a queued run of another kind at one of `periods`. */
  ghost predicate OnlyFills(before: map<int, DagRun>, after: map<int, DagRun>, periods: seq<int>) {
    && (forall d :: d in before ==> d in after && after[d] == before[d])
    && (forall d :: d in after && d !in before ==> d in periods && after[d] == DagRun(ByOther, Phase.Queued))
  }

  class Scheduler {
    const next: int -> int
    const c: Config
    var now: int
    var runs: map<int, DagRun>
    var elsewhere: nat

    ghost function State(): System
      reads this
    {
      System(now, runs, elsewhere)
    }

    constructor (schedule: int -> int, config: Config, s: System)
      ensures next == schedule && c == config && State() == s
    {
      next, c, now, runs, elsewhere := schedule, config, s.now, s.runs, s.elsewhere;
    }

    method CreateDagRunBounded(date: int, kind: Trigger) returns (full: bool, exists': bool)
      modifies this`runs
      ensures State() == Create(c, old(State()), date, kind)
      ensures full <==> |set d | d in old(runs) && old(runs)[d].phase == Phase.Queued| + elsewhere >= c.queueLimit
      ensures exists' <==> !full && date in old(runs)
      ensures full == QueueFull(c, old(State()))
    {
      CountsWrittenOut(runs);
      full, exists' := |InQueue(runs)| + elsewhere >= c.queueLimit, false;
      if !full {
        exists' := date in runs;
        if !exists' {
          runs := runs[date := DagRun(kind, Phase.Queued)];
        }
      }
    }

    /** The latest scheduled run's date, or a second before the start when there is none. */
    method ScheduleAnchor() returns (anchor: int)
      ensures anchor == Anchor(c, runs)
    {
      anchor := c.Base();
      var found := false;
      var todo := runs.Keys;
      while todo != {}
        invariant todo <= runs.Keys
        invariant !found ==> forall d :: d in Scheduled(runs) ==> d in todo
        invariant found ==> anchor in Scheduled(runs) && forall d :: d in Scheduled(runs) && d !in todo ==> d <= anchor
        invariant !found ==> anchor == c.Base()
        decreases todo
      {
        SomeMember(todo);
        var d :| d in todo;
        todo := todo - {d};
        if runs[d].trigger.BySchedule? {
          assert d in Scheduled(runs);
          if !found || d > anchor {
            anchor := d;
          }
          found := true;
        }
      }
      SomeMember(Scheduled(runs));
    }

    /** createDueRuns for this DAG. */
    method CreateDueRuns(paused: bool)
      modifies this`runs
      ensures State() == Next(next, c, old(State()), Tick(paused))
    {
      if paused {
        return;
      }
      var anchor := ScheduleAnchor();
      var due := next(anchor);
      if now < due || |Active(runs)| >= c.maxActive {
        return;
      }
      var full, taken := CreateDagRunBounded(due, BySchedule);
    }

    /** All periods of the window, or none when there are more than the limit. */
    method Enumerate(from: int, until: int) returns (periods: seq<int>, tooMany: bool)
      requires IsSchedule(next)
      ensures periods == PointsFrom(next, from - SECOND, |periods|) && |periods| <= 500
      ensures tooMany <==> Point(next, from - SECOND, 500) <= until
      ensures !tooMany ==> forall p :: p in periods <==> IsPoint(next, p) && from - SECOND < p <= until
    {
      ghost var base := from - SECOND;
      var t := next(from - SECOND);
      periods, tooMany := [], false;
      while t <= until
        invariant |periods| <= MAX_BACKFILL_RUNS
        invariant periods == PointsFrom(next, base, |periods|) && t == Point(next, base, |periods|)
        invariant forall p :: p in periods ==> p <= until
        decreases until - t
      {
        if |periods| >= MAX_BACKFILL_RUNS {
          return periods, true;
        }
        PointsArePoints(next, base, |periods| + 1);
        periods := periods + [t];
        t := next(t);
      }
      PointsIncrease(next, base, |periods|, MAX_BACKFILL_RUNS);
      forall p
        ensures p in periods <==> IsPoint(next, p) && base < p <= until
      {
        PointsFromMembers(next, base, |periods|, p);
        FirstPointsAreAll(next, base, |periods|, p);
      }
    }

    /** Creates what is missing of `periods`, stopping at a full queue. */
    method CreateAll(periods: seq<int>) returns (created: nat, skipped: nat, full: bool)
      modifies this`runs
      ensures OnlyFills(old(runs), runs, periods) && |runs| == |old(runs)| + created
      ensures full ==> QueueFull(c, State())
      ensures !full ==> created + skipped == |periods| && forall k :: 0 <= k < |periods| ==> periods[k] in runs
    {
      created, skipped := 0, 0;
      for i := 0 to |periods|
        invariant created + skipped == i && |runs| == |old(runs)| + created
        invariant OnlyFills(old(runs), runs, periods)
        invariant forall k :: 0 <= k < i ==> periods[k] in runs
      {
        var taken;
        full, taken := CreateOne(periods, i, old(runs));
        if full {
          return;
        }
        if taken {
          skipped := skipped + 1;
        } else {
          created := created + 1;
        }
      }
      full := false;
    }

    method CreateOne(periods: seq<int>, i: nat, ghost start: map<int, DagRun>) returns (full: bool, taken: bool)
      requires i < |periods| && OnlyFills(start, runs, periods)
      modifies this`runs
      ensures OnlyFills(start, runs, periods) && runs.Keys >= old(runs).Keys
      ensures full ==> QueueFull(c, State()) && runs == old(runs)
      ensures !full ==> periods[i] in runs && |runs| == |old(runs)| + if taken then 0 else 1
    {
      full, taken := CreateDagRunBounded(periods[i], ByOther);
      assert !full && !taken ==> runs == old(runs)[periods[i] := DagRun(ByOther, Phase.Queued)];
    }

    /** A window is enumerated in full before anything is created. */
    method Backfill(from: int, until: int) returns (r: Backfilled)
      requires IsSchedule(next)
      modifies this`runs
      ensures r.EmptyWindow? <==> from >= Least(until, now)
      ensures r.TooManyPeriods? <==>
        from < Least(until, now) && Point(next, from - SECOND, 500) <= Least(until, now)
      ensures r.EmptyWindow? || r.TooManyPeriods? ==> runs == old(runs)
      ensures r.Enqueued? ==> forall p :: InWindow(next, now, from, until, p) ==> p in runs
      ensures r.Enqueued? || r.QueueLimit? ==>
        && (forall d :: d in old(runs) ==> d in runs && runs[d] == old(runs)[d])
        && (forall d :: d in runs && d !in old(runs) ==>
              InWindow(next, now, from, until, d) && runs[d] == DagRun(ByOther, Phase.Queued))
        && |runs| == |old(runs)| + r.created
      ensures r.QueueLimit? ==> QueueFull(c, State())
    {
      var last := if until > now then now else until;
      if from >= last {
        return EmptyWindow;
      }
      var periods, tooMany := Enumerate(from, last);
      if tooMany {
        return TooManyPeriods;
      }
      var created, skipped, full := CreateAll(periods);
      r := if full then QueueLimit(created, skipped) else Enqueued(created, skipped);
    }
  }

  /** A backfill changes no scheduled run, and a later tick goes on from where the schedule was. */
  lemma FillingKeepsSchedule(next: int -> int, c: Config, s: System, runs: map<int, DagRun>, periods: seq<int>, k: nat)
    requires Prefix(next, c, s, k) && OnlyFills(s.runs, runs, periods)
    ensures Prefix(next, c, s.(runs := runs), k)
  {
    forall d
      ensures d in Scheduled(runs) <==> d in Scheduled(s.runs)
    {
      assert d in runs && d !in s.runs ==> runs[d].trigger.ByOther?;
      assert d in s.runs ==> d in runs && runs[d] == s.runs[d];
    }
  }

  /** The window is exactly the points from `from` on unless one lies in the second before it. */
  lemma WindowStartsAtFromIff(next: int -> int, now: int, from: int, until: int)
    ensures (forall p :: InWindow(next, now, from, until, p) <==> IsPoint(next, p) && from <= p <= Least(until, now))
       <==> !exists p :: IsPoint(next, p) && from - 1_000_000_000 < p < from && p <= Least(until, now)
  {
    if p :| IsPoint(next, p) && from - SECOND < p < from && p <= Least(until, now) {
      assert InWindow(next, now, from, until, p);
    }
  }
}
