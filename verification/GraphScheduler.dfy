/** The graph-driven execution loop of a task: one round per iteration, up to an iteration cap. */
module GraphScheduler {
  import opened Prelude
  import opened StageGraph
  import opened LinearMode

  /** What executing a stage came to; Raised is an exception that leaves the execution call. */
  datatype StageOutcome = Succeeded | Failed | Raised | NoChanges

  /** Everything a round learns from outside: cancellation, skip conditions, outcomes and gate answers. */
  datatype RoundInput = RoundInput(
    cancelled: bool,
    skips: string -> bool,
    outcome: string -> StageOutcome,
    gatePasses: string -> bool)

  datatype RunState = RunState(
    completed: set<string>,
    failed: set<string>,
    skipped: set<string>,
    counts: map<string, int>)
  {
    function Count(n: string): int {
      if n in counts then counts[n] else 0
    }

    function Done(): set<string> {
      completed + skipped
    }

    function Skip(n: string): RunState {
      this.(skipped := skipped + {n})
    }

    function Execute(n: string): RunState {
      this.(counts := counts[n := Count(n) + 1])
    }
  }

  datatype Exit = Cancelled | Finished | Stuck | StageFailed(stage: string) | Aborted(stage: string)

  datatype RoundResult = Continue(state: RunState) | Leave(state: RunState, exit: Exit)

  function Ready(g: NodeDict, st: RunState): seq<string> {
    ReadyAmong(g, g.keys, st.completed, {}, st.failed, st.skipped, st.counts)
  }

  predicate SkipsStage(stageMap: set<string>, inp: RoundInput, n: string) {
    n !in stageMap || inp.skips(n)
  }

  function RedirectTarget(g: NodeDict, stageMap: set<string>, n: string): Option<string> {
    if n in g.at && Redirect(g.at[n]).Some? && Redirect(g.at[n]).value in stageMap then Redirect(g.at[n]) else None
  }

  /** A round with one ready stage. */
  function SingleRound(g: NodeDict, stageMap: set<string>, st: RunState, inp: RoundInput, n: string): RoundResult {
    if SkipsStage(stageMap, inp, n) then Continue(st.Skip(n)) else
      var run := st.Execute(n);
      match inp.outcome(n)
      case Failed =>
        var failed := run.(failed := run.failed + {n});
        var target := RedirectTarget(g, stageMap, n);
        if target.Some? then
          Continue(failed.(completed := failed.completed - {target.value}, failed := failed.failed - {target.value}))
        else
          Leave(failed, StageFailed(n))
      case Raised => Leave(run, Aborted(n))
      case NoChanges => Leave(run, Aborted(n))
      case Succeeded =>
        var done := run.(completed := run.completed + {n});
        if inp.gatePasses(n) then Continue(done) else Leave(done, Aborted(n))
  }

  /** A parallel round first launches: absent and excluded stages are skipped, the others counted. */
  function Launch(stageMap: set<string>, st: RunState, inp: RoundInput, ready: seq<string>): RunState {
    if ready == [] then st else
      var before := Launch(stageMap, st, inp, ready[..|ready| - 1]);
      if SkipsStage(stageMap, inp, Last(ready)) then before.Skip(Last(ready)) else before.Execute(Last(ready))
  }

  function Launched(stageMap: set<string>, inp: RoundInput, ready: seq<string>): seq<string> {
    if ready == [] then [] else
      Launched(stageMap, inp, ready[..|ready| - 1]) + if SkipsStage(stageMap, inp, Last(ready)) then [] else [Last(ready)]
  }

  /** Then it collects the outcomes in launch order. */
  function Collect(st: RunState, inp: RoundInput, launched: seq<string>): RoundResult {
    if launched == [] then Continue(st) else
      var before := Collect(st, inp, launched[..|launched| - 1]);
      var n := Last(launched);
      if before.Leave? then before else
        match inp.outcome(n)
        case Succeeded => Continue(before.state.(completed := before.state.completed + {n}))
        case NoChanges => Leave(before.state, Aborted(n))
        case Failed => Continue(before.state.(failed := before.state.failed + {n}))
        case Raised => Continue(before.state.(failed := before.state.failed + {n}))
  }

  function ParallelRound(stageMap: set<string>, st: RunState, inp: RoundInput, ready: seq<string>): RoundResult {
    Collect(Launch(stageMap, st, inp, ready), inp, Launched(stageMap, inp, ready))
  }

  function Round(g: NodeDict, stageMap: set<string>, st: RunState, inp: RoundInput): RoundResult {
    if inp.cancelled then Leave(st, Cancelled) else
      var ready := Ready(g, st);
      if ready == [] then Leave(st, if st.failed <= st.completed then Finished else Stuck)
      else if |ready| == 1 then SingleRound(g, stageMap, st, inp, ready[0])
      else ParallelRound(stageMap, st, inp, ready)
  }

  /** How the loop ended: by leaving a round, or with `None` by running out of iterations. */
  datatype Ending = Ending(state: RunState, exit: Option<Exit>, rounds: nat) {
    /** The failure "exceeded max iterations" is raised after the loop, also when it broke off in the last iteration. */
    predicate ReportsLimit(cap: nat) {
      rounds >= cap && (exit.None? || exit.value.Finished?)
    }
  }

  function RunFrom(g: NodeDict, stageMap: set<string>, st: RunState, inputs: nat -> RoundInput, i: nat, cap: nat): (e: Ending)
    requires i <= cap
    ensures e.rounds <= cap
    ensures e.exit.None? ==> e.rounds == cap
    decreases cap - i
  {
    if i == cap then Ending(st, None, cap) else
      match Round(g, stageMap, st, inputs(i))
      case Continue(next) => RunFrom(g, stageMap, next, inputs, i + 1, cap)
      case Leave(last, exit) => Ending(last, Some(exit), i + 1)
  }

  // ---------------------------------------------------------------- the loop itself

  class GraphRun {
    const graph: Graph
    const stageMap: set<string>
    var completed: set<string>
    var failed: set<string>
    var skipped: set<string>
    var counts: map<string, int>

    constructor (graph: Graph, stageMap: set<string>, st: RunState)
      ensures this.graph == graph && this.stageMap == stageMap && State() == st
    {
      this.graph := graph;
      this.stageMap := stageMap;
      completed, failed, skipped, counts := st.completed, st.failed, st.skipped, st.counts;
    }

    function State(): RunState
      reads this
    {
      RunState(completed, failed, skipped, counts)
    }

    method Execute(n: string)
      modifies `counts
      ensures State() == old(State()).Execute(n)
    {
      counts := counts[n := (if n in counts then counts[n] else 0) + 1];
    }

    method RunSingle(n: string, inp: RoundInput) returns (exit: Option<Exit>)
      requires n in graph.nodes.at
      modifies this
      ensures SingleRound(graph.nodes, stageMap, old(State()), inp, n)
              == if exit.None? then Continue(State()) else Leave(State(), exit.value)
    {
      exit := None;
      if n !in stageMap {
        skipped := skipped + {n};
        return;
      }
      if inp.skips(n) {
        skipped := skipped + {n};
        return;
      }
      Execute(n);
      match inp.outcome(n) {
        case Failed =>
          failed := failed + {n};
          var redirect := graph.GetFailureRedirect(n);
          if redirect.Some? && redirect.value in stageMap {
            completed := completed - {redirect.value};
            failed := failed - {redirect.value};
          } else {
            return Some(StageFailed(n));
          }
        case Raised =>
          return Some(Aborted(n));
        case NoChanges =>
          return Some(Aborted(n));
        case Succeeded =>
          completed := completed + {n};
          if !inp.gatePasses(n) {
            return Some(Aborted(n));
          }
      }
    }

    method RunParallel(ready: seq<string>, inp: RoundInput) returns (exit: Option<Exit>)
      modifies this
      ensures ParallelRound(stageMap, old(State()), inp, ready)
              == if exit.None? then Continue(State()) else Leave(State(), exit.value)
    {
      var tasks := [];
      var i := 0;
      while i < |ready|
        invariant 0 <= i <= |ready|
        invariant State() == Launch(stageMap, old(State()), inp, ready[..i])
        invariant tasks == Launched(stageMap, inp, ready[..i])
      {
        var n := ready[i];
        assert ready[..i + 1][..i] == ready[..i];
        i := i + 1;
        if n !in stageMap {
          skipped := skipped + {n};
          continue;
        }
        if inp.skips(n) {
          skipped := skipped + {n};
          continue;
        }
        Execute(n);
        tasks := tasks + [n];
      }
      assert ready[..i] == ready;
      exit := CollectResults(tasks, inp);
    }

    method CollectResults(tasks: seq<string>, inp: RoundInput) returns (exit: Option<Exit>)
      modifies this
      ensures Collect(old(State()), inp, tasks) == if exit.None? then Continue(State()) else Leave(State(), exit.value)
    {
      var i := 0;
      while i < |tasks|
        invariant 0 <= i <= |tasks|
        invariant Collect(old(State()), inp, tasks[..i]) == Continue(State())
      {
        var n := tasks[i];
        assert tasks[..i + 1][..i] == tasks[..i];
        i := i + 1;
        match inp.outcome(n) {
          case Succeeded =>
            completed := completed + {n};
          case NoChanges =>
            LeavingIsFinal(old(State()), inp, tasks, i);
            return Some(Aborted(n));
          case Failed =>
            failed := failed + {n};
          case Raised =>
            failed := failed + {n};
        }
      }
      assert tasks[..i] == tasks;
      exit := None;
    }

    /** One iteration of the loop. */
    method Step(inp: RoundInput) returns (exit: Option<Exit>)
      requires graph.nodes.Valid() && !HasNullList(graph.nodes)
      modifies this
      ensures Round(graph.nodes, stageMap, old(State()), inp)
              == if exit.None? then Continue(State()) else Leave(State(), exit.value)
    {
      if inp.cancelled {
        return Some(Cancelled);
      }
      var found := graph.GetReadyStages(completed, {}, failed, skipped, counts);
      var ready := found.value;
      if ready == [] {
        if failed != {} {
          var unresolved := set n | n in failed && n !in completed;
          if unresolved != {} {
            assert !(failed <= completed) by { var n :| n in unresolved; }
            return Some(Stuck);
          }
          assert forall n :: n in failed ==> n in completed || n in unresolved;
        }
        return Some(Finished);
      }
      if |ready| == 1 {
        assert ready[0] in ready;
        exit := RunSingle(ready[0], inp);
      } else {
        exit := RunParallel(ready, inp);
      }
    }

    method Run(inputs: nat -> RoundInput, maxLoopIterations: nat) returns (ending: Ending)
      requires graph.nodes.Valid() && !HasNullList(graph.nodes)
      modifies this
      ensures ending == RunFrom(graph.nodes, stageMap, old(State()), inputs, 0, maxLoopIterations * |graph.nodes.keys|)
      ensures ending.state == State()
    {
      var maxIterations := maxLoopIterations * |graph.nodes.keys|;
      var iteration := 0;
      while iteration < maxIterations
        invariant 0 <= iteration <= maxIterations
        invariant RunFrom(graph.nodes, stageMap, old(State()), inputs, 0, maxIterations)
                  == RunFrom(graph.nodes, stageMap, State(), inputs, iteration, maxIterations)
      {
        iteration := iteration + 1;
        var exit := Step(inputs(iteration - 1));
        if exit.Some? {
          return Ending(State(), exit, iteration);
        }
      }
      return Ending(State(), None, iteration);
    }
  }

  lemma {:induction false} LeavingIsFinal(st: RunState, inp: RoundInput, tasks: seq<string>, k: nat)
    requires k <= |tasks| && Collect(st, inp, tasks[..k]).Leave?
    ensures Collect(st, inp, tasks) == Collect(st, inp, tasks[..k])
    decreases |tasks| - k
  {
    if k < |tasks| {
      assert tasks[..k + 1][..k] == tasks[..k];
      LeavingIsFinal(st, inp, tasks, k + 1);
    } else {
      assert tasks[..k] == tasks;
    }
  }

  // ---------------------------------------------------------------- the whole task

  datatype StageStatus = Completed | Skipped | OtherStatus

  datatype StageRow = StageRow(name: string, status: StageStatus, executionCount: nat)

  /** Raises is the exception on a null list; it leaves the loop's function. */
  datatype TaskEnding =
    | Raises
    | InvalidGraph(errors: seq<GraphError>)
    | ResumeStopped
    | Ran(ending: Ending)

  const FreshRun := RunState({}, {}, {}, map[])

  /** The sets and counts that the stage rows of an earlier run leave behind. */
  function Resumed(rows: seq<StageRow>): RunState {
    if rows == [] then FreshRun else
      var st := Resumed(rows[..|rows| - 1]);
      var row := Last(rows);
      RunState(
        if row.status.Completed? then st.completed + {row.name} else st.completed,
        {},
        if row.status.Skipped? then st.skipped + {row.name} else st.skipped,
        st.counts[row.name := row.executionCount])
  }

  function RowNames(rows: seq<StageRow>): set<string> {
    set row | row in rows :: row.name
  }

  predicate ResumeStops(rows: seq<StageRow>, resumes: string -> bool) {
    exists row :: row in rows && row.status.Completed? && !resumes(row.name)
  }

  /** The loop over the stage rows; `ok` is false when a completed stage stops the resume. */
  method ResumeStages(rows: seq<StageRow>, resumes: string -> bool) returns (ok: bool, st: RunState)
    ensures ok <==> !ResumeStops(rows, resumes)
    ensures ok ==> st == Resumed(rows)
  {
    ok, st := true, FreshRun;
    var i := 0;
    while i < |rows|
      invariant 0 <= i <= |rows|
      invariant st == Resumed(rows[..i])
      invariant forall j :: 0 <= j < i && rows[j].status.Completed? ==> resumes(rows[j].name)
    {
      var row := rows[i];
      assert rows[..i + 1][..i] == rows[..i];
      if row.status.Completed? {
        if !resumes(row.name) {
          assert row in rows;
          return false, st;
        }
        st := st.(completed := st.completed + {row.name});
      } else if row.status.Skipped? {
        st := st.(skipped := st.skipped + {row.name});
      }
      st := st.(counts := st.counts[row.name := row.executionCount]);
      i := i + 1;
    }
    assert rows[..i] == rows;
  }

  /** `resumes` answers the checks (code changes, circuit breaker, outstanding gate) of an already completed stage. */
  method ProcessTaskGraph(template: Option<seq<StageDef>>, rows: seq<StageRow>, resumes: string -> bool,
                          inputs: nat -> RoundInput, maxLoopIterations: nat) returns (r: TaskEnding)
    ensures var g := if template.Some? then GraphOf(template.value) else EmptyDict;
            && (r.Raises? <==> HasNullList(g))
            && (r.InvalidGraph? <==> !HasNullList(g) && !WellFormed(g))
            && (r.ResumeStopped? <==> !HasNullList(g) && WellFormed(g) && ResumeStops(rows, resumes))
            && (r.Ran? ==>
                  r.ending == RunFrom(g, RowNames(rows), Resumed(rows), inputs, 0, maxLoopIterations * |g.keys|))
  {
    hide *;
    var graph := FromTemplateStages(template);
    var errors := graph.Validate();
    if errors.None? {
      return Raises;
    }
    if errors.value != [] {
      return InvalidGraph(errors.value);
    }
    var ok, st := ResumeStages(rows, resumes);
    if !ok {
      return ResumeStopped;
    }
    var run := new GraphRun(graph, RowNames(rows), st);
    var ending := run.Run(inputs, maxLoopIterations);
    return Ran(ending);
  }
}
