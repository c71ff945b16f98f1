/**
 From a DAG as written to a run that makes progress: foreach expansion, the dependency
 checks and block propagation put together (internal/scheduler/parser/parser.go, Parse;
 internal/scheduler/scheduler.go, processRun). Other checks of Parse are not part of this model.
 */
module DagPipeline {
  import opened TaskModel
  import opened DagGraph
  import opened DependencyChecks
  import opened Foreach
  import opened BlockPropagation
  import opened ShardNames

  datatype Parsed = Dag(tasks: seq<Task>) | BadForeach(why: Expansion) | BadDependencies(rejection: Rejection)

  /** The tasks a run is made of. */
  function TasksOf(specs: seq<TaskSpec>): seq<Task> {
    if NoFanOut(specs) then Plain(specs) else Relinked(specs, Unfolded(specs))
  }

  ghost predicate Expands(specs: seq<TaskSpec>) {
    NoFanOut(specs) || (|Unfolded(specs)| <= MAX_TASKS && WithinLimits(specs))
  }

  /** Parsing succeeds exactly when the expansion is within limits and its task list is acceptable. */
  method Parse(specs: seq<TaskSpec>) returns (p: Parsed)
    ensures p.Dag? <==> Expands(specs) && Accepted(TasksOf(specs))
    ensures p.Dag? ==> p.tasks == TasksOf(specs)
    ensures p.BadForeach? <==> !Expands(specs)
  {
    var e := ExpandForeach(specs);
    if !e.Expanded? {
      return BadForeach(e);
    }
    var v := CheckDependencies(e.tasks);
    p := if v.Ok? then Dag(e.tasks) else BadDependencies(v.why);
  }

  /** Whether a DAG is refused for a cycle can be read off the DAG as written, shard names read as their originals. */
  lemma CyclesAreThoseWritten(specs: seq<TaskSpec>)
    requires UniqueBefore(specs) && UniqueAfter(specs)
    ensures HasCycle(Adjacency(TasksOf(specs))) <==> HasCycle(GraphMeant(specs))
  {
    if NoFanOut(specs) {
      NoShardNamedMeansAsWritten(specs);
    } else {
      ExpansionCyclesExactly(specs);
    }
  }

  /** Finished, or with an attempt in flight, or with a task ready to be dispatched. */
  ghost predicate MovesOn(tasks: seq<Task>, rows: Rows) {
    && Instantiated(tasks, rows)
    && (|| (forall i :: 0 <= i < |tasks| ==> rows[tasks[i].id].IsTerminal())
        || (exists i :: 0 <= i < |tasks| && InFlight(rows[tasks[i].id]))
        || (exists i :: 0 <= i < |tasks| && rows[tasks[i].id] == Scheduled
                        && GateOpen(tasks[i], rows)))
  }

  /**
   End to end: whatever mix of states its rows are in, a run of a DAG that parses is
   settled by one propagation and then never wedged.
   */
  method ProcessRun(specs: seq<TaskSpec>, run: BlockPropagation.RunState) returns (p: Parsed)
    modifies run
    ensures p.Dag? <==> Expands(specs) && Accepted(TasksOf(specs))
    ensures !p.Dag? ==> run.rows == old(run.rows)
    ensures p.Dag? ==> LeastSettled(TasksOf(specs), old(run.rows), run.rows)
    ensures p.Dag? && Instantiated(TasksOf(specs), old(run.rows)) ==> MovesOn(TasksOf(specs), run.rows)
  {
    p := Parse(specs);
    if p.Dag? {
      ghost var before := run.rows;
      run.PropagateBlocks(p.tasks);
      if Instantiated(p.tasks, before) {
        RunNeverWedges(p.tasks, before, run.rows);
      }
    }
  }
}
