/** What every run of the graph scheduler keeps: progress, termination, order and execution limits. */
module SchedulerTheorems {
  import opened Prelude
  import opened StageGraph
  import opened LinearMode
  import opened GraphScheduler

  // ---------------------------------------------------------------- no silent stall

  ghost predicate AllDone(g: NodeDict, st: RunState) {
    forall n :: n in g.at ==> n in st.Done()
  }

  /**
   * If everything in `u` depends on something in `u`, following dependencies runs into a cycle: a path
   * through `u` goes on until nothing of `u` is left outside it.
   */
  lemma {:induction false} EndlessDescentIsCyclic(g: NodeDict, u: set<string>, p: seq<string>, rest: set<string>)
    requires IsPath(g, p) && Last(p) in u
    requires forall n :: n in u ==> n in p || n in rest
    requires forall n :: n in u ==> DependsWithin(g, u, n)
    ensures Cyclic(g)
    decreases rest
  {
    assert |p| > 0;
    hide DependsWithin, IsPath, DependsOn, Cyclic;
    var d := DependencyWithin(g, u, Last(p));
    if d in p {
      BackEdgeClosesCycle(g, p, d);
      LoopIsCyclic(g, d);
    } else {
      ExtendPath(g, p, d);
      EndlessDescentIsCyclic(g, u, p + [d], rest - {d});
    }
  }

  ghost predicate DependsWithin(g: NodeDict, u: set<string>, n: string) {
    exists d :: d in u && DependsOn(g, n, d)
  }

  lemma DependencyWithin(g: NodeDict, u: set<string>, n: string) returns (d: string)
    requires DependsWithin(g, u, n)
    ensures d in u && DependsOn(g, n, d)
  {
    d :| d in u && DependsOn(g, n, d);
  }

  lemma LoopIsCyclic(g: NodeDict, n: string)
    requires Reaches(g, n, n)
    ensures Cyclic(g)
  {
  }

  lemma ExtendPath(g: NodeDict, p: seq<string>, d: string)
    requires IsPath(g, p) && DependsOn(g, Last(p), d)
    ensures IsPath(g, p + [d]) && Last(p + [d]) == d && forall n :: n in p || n == d <==> n in p + [d]
  {
  }

  /**
   * When every list that a template gives is non-empty, as when absent lists are stored as null, no graph with
   * explicit dependencies passes validation: it raises, or it refers to an unknown stage, or it is cyclic.
   */
  lemma NullRootsNeverValidate(defs: seq<StageDef>)
    requires NamesDependencies(defs) && forall sd :: sd in defs && sd.dependsOn.Some? ==> sd.dependsOn.value != []
    ensures HasNullList(GraphOf(defs)) || !WellFormed(GraphOf(defs))
  {
    hide *;
    var g := GraphOf(defs);
    if !HasNullList(g) && RefersToKnown(g) {
      forall n | n in g.at ensures DependsWithin(g, g.at.Keys, n) {
        EveryStageDepends(defs, n);
      }
      var start := SomeNode(defs);
      PathOfOne(g, start);
      EndlessDescentIsCyclic(g, g.at.Keys, [start], g.at.Keys);
    }
    ValidMeans(g);
  }

  lemma ValidMeans(g: NodeDict)
    ensures WellFormed(g) <==> RefersToKnown(g) && !Cyclic(g)
  {
  }

  lemma PathOfOne(g: NodeDict, n: string)
    ensures IsPath(g, [n]) && Last([n]) == n
  {
  }

  lemma SomeNode(defs: seq<StageDef>) returns (n: string)
    requires NamesDependencies(defs)
    ensures n in GraphOf(defs).at
  {
    var sd :| sd in defs && sd.dependsOn.Some? && sd.dependsOn.value != [];
    n := sd.name;
    var i := LastOfName(defs, n);
    ExplicitNode(defs, i);
  }

  lemma EveryStageDepends(defs: seq<StageDef>, n: string)
    requires NamesDependencies(defs) && n in GraphOf(defs).at
    requires forall sd :: sd in defs && sd.dependsOn.Some? ==> sd.dependsOn.value != []
    requires !HasNullList(GraphOf(defs)) && RefersToKnown(GraphOf(defs))
    ensures DependsWithin(GraphOf(defs), GraphOf(defs).at.Keys, n)
  {
    var i := FinalDefinition(defs, n);
    ExplicitNode(defs, i);
    hide PutExplicit;
    var g := GraphOf(defs);
    assert g.at[n].dependsOn == defs[i].dependsOn && defs[i] in defs;
    var deps := g.at[n].Deps();
    assert NodeRefersToKnown(g, n) && deps[0] in deps;
    assert DependsOn(g, n, deps[0]);
  }

  lemma {:induction false} LastOfName(defs: seq<StageDef>, name: string) returns (i: nat)
    requires exists sd :: sd in defs && sd.name == name
    ensures IsFinal(defs, i) && defs[i].name == name
  {
    i := |defs| - 1;
    if defs[i].name != name {
      assert defs == defs[..i] + [defs[i]];
      i := LastOfName(defs[..i], name);
    }
  }

  /** On a valid graph some stage is ready whenever one is undone and every failed stage has completed. */
  lemma SomeStageIsReady(g: NodeDict, st: RunState)
    requires g.Valid() && WellFormed(g)
    requires !AllDone(g, st) && st.failed <= st.completed
    ensures Ready(g, st) != []
  {
    var undone := set n | n in g.at && n !in st.Done();
    var start :| start in g.at && start !in st.Done();
    if Ready(g, st) == [] {
      forall n | n in undone ensures DependsWithin(g, undone, n) {
        UndoneDependency(g, st, n);
      }
      PathOfOne(g, start);
      hide IsPath, DependsOn, Cyclic, Ready, DependsWithin;
      EndlessDescentIsCyclic(g, undone, [start], undone);
    }
  }

  lemma UndoneDependency(g: NodeDict, st: RunState, n: string)
    requires g.Valid() && RefersToKnown(g) && st.failed <= st.completed
    requires n in g.at && n !in st.Done() && n !in Ready(g, st)
    ensures exists d :: d in g.at && d !in st.Done() && DependsOn(g, n, d)
  {
    assert NodeRefersToKnown(g, n);
    assert n in g.keys;
    var d :| d in g.at[n].Deps() && d !in st.Done();
    assert DependsOn(g, n, d);
  }

  lemma {:induction false} CollectOnlyAborts(st: RunState, inp: RoundInput, launched: seq<string>)
    ensures Collect(st, inp, launched).Leave? ==> Collect(st, inp, launched).exit.Aborted?
  {
    if launched != [] {
      CollectOnlyAborts(st, inp, launched[..|launched| - 1]);
    }
  }

  lemma {:induction false} NoneIsReady(g: NodeDict, st: RunState, names: seq<string>)
    requires AllDone(g, st)
    ensures ReadyAmong(g, names, st.completed, {}, st.failed, st.skipped, st.counts) == []
  {
    if names != [] {
      NoneIsReady(g, st, names[..|names| - 1]);
      assert Last(names) in g.at ==> Last(names) in st.Done();
    }
  }

  /** The loop breaks off normally exactly when every stage is done and every failed stage completed after all. */
  lemma FinishedExactly(g: NodeDict, stageMap: set<string>, st: RunState, inp: RoundInput)
    requires g.Valid() && WellFormed(g) && !inp.cancelled
    ensures (Round(g, stageMap, st, inp).Leave? && Round(g, stageMap, st, inp).exit.Finished?)
            <==> AllDone(g, st) && st.failed <= st.completed
  {
    var ready := Ready(g, st);
    CollectOnlyAborts(Launch(stageMap, st, inp, ready), inp, Launched(stageMap, inp, ready));
    if AllDone(g, st) {
      NoneIsReady(g, st, g.keys);
    } else if st.failed <= st.completed {
      SomeStageIsReady(g, st);
    }
  }

  // ---------------------------------------------------------------- what one round changes

  /** A failing stage that ran alone sends the run back to its redirect target. */
  predicate Redirected(g: NodeDict, stageMap: set<string>, st: RunState, inp: RoundInput) {
    var ready := Ready(g, st);
    && !inp.cancelled && |ready| == 1
    && !SkipsStage(stageMap, inp, ready[0]) && inp.outcome(ready[0]).Failed?
    && RedirectTarget(g, stageMap, ready[0]).Some?
  }

  predicate RunsStage(stageMap: set<string>, inp: RoundInput, ready: seq<string>, n: string) {
    n in ready && !SkipsStage(stageMap, inp, n)
  }

  ghost predicate LaunchEffect(stageMap: set<string>, st: RunState, inp: RoundInput, ready: seq<string>, next: RunState) {
    && next.completed == st.completed && next.failed == st.failed
    && next.skipped == st.skipped + (set n | n in ready && SkipsStage(stageMap, inp, n))
    && forall n :: next.Count(n) == st.Count(n) + if RunsStage(stageMap, inp, ready, n) then 1 else 0
  }

  lemma {:induction false} LaunchHasEffect(stageMap: set<string>, st: RunState, inp: RoundInput, ready: seq<string>)
    requires Distinct(ready)
    ensures LaunchEffect(stageMap, st, inp, ready, Launch(stageMap, st, inp, ready))
    ensures forall n :: n in Launched(stageMap, inp, ready) <==> RunsStage(stageMap, inp, ready, n)
  {
    if ready != [] {
      var init, last := ready[..|ready| - 1], Last(ready);
      LaunchHasEffect(stageMap, st, inp, init);
      assert ready == init + [last];
      assert last !in init;
      LaunchOneMore(stageMap, st, inp, init, last, Launch(stageMap, st, inp, init));
      hide LaunchEffect;
    }
  }

  lemma LaunchOneMore(stageMap: set<string>, st: RunState, inp: RoundInput, init: seq<string>, last: string, mid: RunState)
    requires LaunchEffect(stageMap, st, inp, init, mid) && last !in init
    ensures LaunchEffect(stageMap, st, inp, init + [last],
                         if SkipsStage(stageMap, inp, last) then mid.Skip(last) else mid.Execute(last))
  {
    assert forall n :: n in init + [last] <==> n in init || n == last;
  }

  ghost predicate CollectEffect(st: RunState, inp: RoundInput, launched: seq<string>, next: RunState) {
    && next.skipped == st.skipped && next.counts == st.counts
    && next.completed == st.completed + (set n | n in launched && inp.outcome(n).Succeeded?)
    && next.failed == st.failed + (set n | n in launched && (inp.outcome(n).Failed? || inp.outcome(n).Raised?))
    && forall n :: n in launched ==> !inp.outcome(n).NoChanges?
  }

  lemma {:induction false} CollectHasEffect(st: RunState, inp: RoundInput, launched: seq<string>)
    ensures Collect(st, inp, launched).Continue? ==>
              CollectEffect(st, inp, launched, Collect(st, inp, launched).state)
  {
    if launched != [] {
      var init := launched[..|launched| - 1];
      CollectHasEffect(st, inp, init);
      assert launched == init + [Last(launched)];
    }
  }

  /** The whole effect of a round that goes on without a redirect. */
  ghost predicate RoundEffect(g: NodeDict, stageMap: set<string>, st: RunState, inp: RoundInput, next: RunState) {
    var ready := Ready(g, st);
    && ready != []
    && next.skipped == st.skipped + (set n | n in ready && SkipsStage(stageMap, inp, n))
    && next.completed == st.completed + (set n | n in ready && RunsStage(stageMap, inp, ready, n) && inp.outcome(n).Succeeded?)
    && next.failed ==
         st.failed + (set n | n in ready && RunsStage(stageMap, inp, ready, n) && (inp.outcome(n).Failed? || inp.outcome(n).Raised?))
    && (forall n :: next.Count(n) == st.Count(n) + if RunsStage(stageMap, inp, ready, n) then 1 else 0)
    && (forall n :: RunsStage(stageMap, inp, ready, n) ==> !inp.outcome(n).NoChanges?)
  }

  lemma RoundHasEffect(g: NodeDict, stageMap: set<string>, st: RunState, inp: RoundInput)
    requires g.Valid()
    requires Round(g, stageMap, st, inp).Continue? && !Redirected(g, stageMap, st, inp)
    ensures RoundEffect(g, stageMap, st, inp, Round(g, stageMap, st, inp).state)
    ensures Ready(g, st) != []
  {
    var ready := Ready(g, st);
    if |ready| == 1 {
      assert forall n :: n in ready <==> n == ready[0];
    } else {
      LaunchHasEffect(stageMap, st, inp, ready);
      CollectHasEffect(Launch(stageMap, st, inp, ready), inp, Launched(stageMap, inp, ready));
    }
  }

  // ---------------------------------------------------------------- runs

  /** The state at the start of round i, if the run gets there. */
  ghost function After(g: NodeDict, stageMap: set<string>, st: RunState, inputs: nat -> RoundInput, i: nat): Option<RunState> {
    if i == 0 then Some(st) else
      var before := After(g, stageMap, st, inputs, i - 1);
      if before.None? then None else
        var r := Round(g, stageMap, before.value, inputs(i - 1));
        if r.Continue? then Some(r.state) else None
  }

  ghost predicate NoRedirectBefore(g: NodeDict, stageMap: set<string>, st: RunState, inputs: nat -> RoundInput, i: nat) {
    forall j: nat :: j < i && After(g, stageMap, st, inputs, j).Some? ==>
      !Redirected(g, stageMap, After(g, stageMap, st, inputs, j).value, inputs(j))
  }

  lemma StartState(g: NodeDict, stageMap: set<string>, st: RunState, inputs: nat -> RoundInput)
    ensures After(g, stageMap, st, inputs, 0) == Some(st)
  {
  }

  lemma StepBack(g: NodeDict, stageMap: set<string>, st: RunState, inputs: nat -> RoundInput, i: nat) returns (before: RunState)
    requires i > 0 && After(g, stageMap, st, inputs, i).Some?
    ensures After(g, stageMap, st, inputs, i - 1) == Some(before)
    ensures Round(g, stageMap, before, inputs(i - 1)) == Continue(After(g, stageMap, st, inputs, i).value)
    ensures NoRedirectBefore(g, stageMap, st, inputs, i) ==>
              NoRedirectBefore(g, stageMap, st, inputs, i - 1) && !Redirected(g, stageMap, before, inputs(i - 1))
  {
    hide Round, Redirected;
    before := After(g, stageMap, st, inputs, i - 1).value;
  }

  lemma {:induction false} RunReaches(g: NodeDict, stageMap: set<string>, st: RunState, inputs: nat -> RoundInput, i: nat, cap: nat)
    requires i <= cap && After(g, stageMap, st, inputs, i).Some?
    ensures RunFrom(g, stageMap, st, inputs, 0, cap) == RunFrom(g, stageMap, After(g, stageMap, st, inputs, i).value, inputs, i, cap)
  {
    hide Round;
    if i > 0 {
      RunReaches(g, stageMap, st, inputs, i - 1, cap);
    }
  }

  /** Where a run ends: in the last round it reached, or with every iteration used up. */
  lemma {:induction false} RunEnds(g: NodeDict, stageMap: set<string>, st: RunState, inputs: nat -> RoundInput, i: nat, cap: nat)
    requires i <= cap && After(g, stageMap, st, inputs, i).Some?
    ensures var e := RunFrom(g, stageMap, st, inputs, 0, cap);
            && i <= e.rounds
            && (e.exit.None? ==> e.rounds == cap && After(g, stageMap, st, inputs, cap) == Some(e.state))
            && (e.exit.Some? ==>
                  && i < e.rounds
                  && After(g, stageMap, st, inputs, e.rounds - 1).Some?
                  && Round(g, stageMap, After(g, stageMap, st, inputs, e.rounds - 1).value, inputs(e.rounds - 1))
                     == Leave(e.state, e.exit.value))
    decreases cap - i
  {
    hide Round;
    RunReaches(g, stageMap, st, inputs, i, cap);
    if i < cap && Round(g, stageMap, After(g, stageMap, st, inputs, i).value, inputs(i)).Continue? {
      RunEnds(g, stageMap, st, inputs, i + 1, cap);
    }
  }

  lemma LastRound(g: NodeDict, stageMap: set<string>, st: RunState, inputs: nat -> RoundInput, cap: nat) returns (i: nat)
    ensures i <= cap && After(g, stageMap, st, inputs, i).Some?
    ensures var e := RunFrom(g, stageMap, st, inputs, 0, cap);
            && e.rounds <= i + 1
            && (e.exit.None? ==> i == cap == e.rounds && After(g, stageMap, st, inputs, i) == Some(e.state))
            && (e.exit.Some? ==>
                  Round(g, stageMap, After(g, stageMap, st, inputs, i).value, inputs(i)) == Leave(e.state, e.exit.value))
    ensures NoRedirectBefore(g, stageMap, st, inputs, cap) ==> NoRedirectBefore(g, stageMap, st, inputs, i)
  {
    hide *;
    StartState(g, stageMap, st, inputs);
    RunEnds(g, stageMap, st, inputs, 0, cap);
    var e := RunFrom(g, stageMap, st, inputs, 0, cap);
    i := if e.exit.None? then cap else e.rounds - 1;
    NoRedirectEarlier(g, stageMap, st, inputs, i, cap);
  }

  lemma NoRedirectEarlier(g: NodeDict, stageMap: set<string>, st: RunState, inputs: nat -> RoundInput, i: nat, cap: nat)
    requires i <= cap
    ensures NoRedirectBefore(g, stageMap, st, inputs, cap) ==> NoRedirectBefore(g, stageMap, st, inputs, i)
  {
    hide After, Redirected;
  }

  // ---------------------------------------------------------------- termination

  function AtLeastZero(x: int): nat {
    if x < 0 then 0 else x
  }

  /** One each for being undone and for never having failed, and one for every execution the limit still allows. */
  function Cost(g: NodeDict, st: RunState, n: string): nat
    requires n in g.at
  {
    (if n in st.Done() then 0 else 1) + (if n in st.failed then 0 else 1) + AtLeastZero(g.at[n].maxExecutions - st.Count(n))
  }

  function TotalCost(g: NodeDict, st: RunState, names: seq<string>): nat
    requires forall n :: n in names ==> n in g.at
  {
    if names == [] then 0 else
      assert Last(names) in names;
      TotalCost(g, st, names[..|names| - 1]) + Cost(g, st, Last(names))
  }

  lemma CostFalls(g: NodeDict, stageMap: set<string>, st: RunState, inp: RoundInput, next: RunState, n: string)
    requires g.Valid() && RoundEffect(g, stageMap, st, inp, next) && n in g.at
    ensures Cost(g, next, n) + (if n in Ready(g, st) then 1 else 0) <= Cost(g, st, n)
  {
    if n in Ready(g, st) {
      if SkipsStage(stageMap, inp, n) {
        assert n in next.skipped;
      } else {
        assert RunsStage(stageMap, inp, Ready(g, st), n);
        assert next.Count(n) == st.Count(n) + 1;
        if inp.outcome(n).Succeeded? {
          assert n in next.completed;
        } else {
          assert n in next.failed;
        }
      }
    } else {
      assert next.Count(n) == st.Count(n);
    }
  }

  lemma {:induction false} TotalCostFalls(g: NodeDict, stageMap: set<string>, st: RunState, inp: RoundInput, next: RunState,
                                          names: seq<string>)
    requires g.Valid() && RoundEffect(g, stageMap, st, inp, next)
    requires forall n :: n in names ==> n in g.at
    ensures TotalCost(g, next, names) +
            |ReadyAmong(g, names, st.completed, {}, st.failed, st.skipped, st.counts)| <= TotalCost(g, st, names)
  {
    if names != [] {
      var n := Last(names);
      assert n in names && n in g.keys;
      TotalCostFalls(g, stageMap, st, inp, next, names[..|names| - 1]);
      CostFalls(g, stageMap, st, inp, next, n);
    }
  }

  ghost function Measure(g: NodeDict, st: RunState): nat
    requires g.Valid()
  {
    TotalCost(g, st, g.keys)
  }

  lemma MeasureFalls(g: NodeDict, stageMap: set<string>, st: RunState, inp: RoundInput)
    requires g.Valid()
    requires Round(g, stageMap, st, inp).Continue? && !Redirected(g, stageMap, st, inp)
    ensures Measure(g, Round(g, stageMap, st, inp).state) + |Ready(g, st)| <= Measure(g, st)
    ensures |Ready(g, st)| > 0
  {
    hide Round, RoundEffect, Redirected;
    RoundHasEffect(g, stageMap, st, inp);
    TotalCostFalls(g, stageMap, st, inp, Round(g, stageMap, st, inp).state, g.keys);
  }

  /** Every round that goes on without a redirect pays one unit for each of its ready stages. */
  lemma {:induction false} RoundsArePaidFor(g: NodeDict, stageMap: set<string>, st: RunState, inputs: nat -> RoundInput, i: nat)
    requires g.Valid() && After(g, stageMap, st, inputs, i).Some? && NoRedirectBefore(g, stageMap, st, inputs, i)
    ensures Measure(g, After(g, stageMap, st, inputs, i).value) + i <= Measure(g, st)
  {
    StartState(g, stageMap, st, inputs);
    hide *;
    if i > 0 {
      var before := StepBack(g, stageMap, st, inputs, i);
      RoundsArePaidFor(g, stageMap, st, inputs, i - 1);
      MeasureFalls(g, stageMap, before, inputs(i - 1));
    }
  }

  function SumOfLimits(g: NodeDict, names: seq<string>): nat
    requires forall n :: n in names ==> n in g.at
  {
    if names == [] then 0 else
      assert Last(names) in names;
      SumOfLimits(g, names[..|names| - 1]) + AtLeastZero(g.at[Last(names)].maxExecutions)
  }

  lemma {:induction false} MeasureBound(g: NodeDict, st: RunState, names: seq<string>)
    requires forall n :: n in names ==> n in g.at
    requires forall n :: st.Count(n) >= 0
    ensures TotalCost(g, st, names) <= 2 * |names| + SumOfLimits(g, names)
  {
    if names != [] {
      assert Last(names) in names;
      MeasureBound(g, st, names[..|names| - 1]);
    }
  }

  /**
   * Without redirects a run ends by itself: within 2n + (sum of max_executions) + 1 rounds, and a cap
   * above that bound is never what stops it or what is reported.
   */
  lemma RunsTerminate(g: NodeDict, stageMap: set<string>, st: RunState, inputs: nat -> RoundInput, cap: nat)
    requires g.Valid() && forall n :: st.Count(n) >= 0
    requires NoRedirectBefore(g, stageMap, st, inputs, cap)
    ensures var e := RunFrom(g, stageMap, st, inputs, 0, cap);
            var bound := 2 * |g.keys| + SumOfLimits(g, g.keys);
            && e.rounds <= bound + 1
            && (cap > bound ==> e.exit.Some?)
            && (cap > bound + 1 ==> !e.ReportsLimit(cap))
  {
    var i := LastRound(g, stageMap, st, inputs, cap);
    RoundsArePaidFor(g, stageMap, st, inputs, i);
    MeasureBound(g, st, g.keys);
    hide *;
  }

  // ---------------------------------------------------------------- execution limits

  /** The stage's limit, or one more execution than at the start if that is beyond it. */
  function ExecutionLimit(g: NodeDict, start: RunState, n: string): int
    requires n in g.at
  {
    if start.Count(n) + 1 > g.at[n].maxExecutions then start.Count(n) + 1 else g.at[n].maxExecutions
  }

  ghost predicate WithinLimit(g: NodeDict, start: RunState, st: RunState, n: string)
    requires n in g.at
  {
    && st.Count(n) <= ExecutionLimit(g, start, n)
    && (n !in st.Done() && n !in st.failed ==> st.Count(n) == start.Count(n))
  }

  /** Without redirects no stage is executed beyond its limit, except once if the limit was reached before the run. */
  lemma {:induction false} ExecutionsAreLimited(g: NodeDict, stageMap: set<string>, st: RunState, inputs: nat -> RoundInput,
                                                i: nat, n: string)
    requires g.Valid() && n in g.at
    requires After(g, stageMap, st, inputs, i).Some? && NoRedirectBefore(g, stageMap, st, inputs, i)
    ensures WithinLimit(g, st, After(g, stageMap, st, inputs, i).value, n)
  {
    hide *;
    if i == 0 {
      StartState(g, stageMap, st, inputs);
      LimitHoldsAtStart(g, st, n);
    } else {
      var before := StepBack(g, stageMap, st, inputs, i);
      ExecutionsAreLimited(g, stageMap, st, inputs, i - 1, n);
      RoundHasEffect(g, stageMap, before, inputs(i - 1));
      RoundKeepsLimit(g, stageMap, st, before, inputs(i - 1), After(g, stageMap, st, inputs, i).value, n);
    }
  }

  lemma LimitHoldsAtStart(g: NodeDict, st: RunState, n: string)
    requires n in g.at
    ensures WithinLimit(g, st, st, n)
  {
  }

  lemma RoundKeepsLimit(g: NodeDict, stageMap: set<string>, start: RunState, st: RunState, inp: RoundInput, next: RunState, n: string)
    requires g.Valid() && n in g.at && WithinLimit(g, start, st, n) && RoundEffect(g, stageMap, st, inp, next)
    ensures WithinLimit(g, start, next, n)
  {
    var ready := Ready(g, st);
    assert n in ready <==> n in g.keys && IsReady(g, n, st.completed, {}, st.failed, st.skipped, st.counts);
    if n in ready && SkipsStage(stageMap, inp, n) {
      assert n in next.skipped;
    }
    assert next.Count(n) == st.Count(n) + if RunsStage(stageMap, inp, ready, n) then 1 else 0;
  }

  // ---------------------------------------------------------------- order

  ghost predicate DependencyClosed(g: NodeDict, s: set<string>) {
    forall n, d :: n in s && DependsOn(g, n, d) ==> d in s
  }

  lemma {:induction false} ClosedAlongPaths(g: NodeDict, s: set<string>, p: seq<string>)
    requires DependencyClosed(g, s) && IsPath(g, p) && p[0] in s
    ensures Last(p) in s
  {
    if |p| > 1 {
      assert DependsOn(g, p[0], p[1]);
      var q := p[1..];
      forall i | 0 <= i < |q| - 1 ensures DependsOn(g, q[i], q[i + 1]) {
        assert DependsOn(g, p[i + 1], p[i + 2]);
      }
      ClosedAlongPaths(g, s, q);
    }
  }

  /** In a dependency-closed state everything a ready stage depends on, at any distance, is done. */
  lemma ReadyDependsOnDone(g: NodeDict, st: RunState, n: string, a: string)
    requires DependencyClosed(g, st.Done()) && n in Ready(g, st) && Reaches(g, n, a)
    ensures a in st.Done()
  {
    var p :| PathFromTo(g, p, n, a);
    assert DependsOn(g, p[0], p[1]);
    var q := p[1..];
    forall i | 0 <= i < |q| - 1 ensures DependsOn(g, q[i], q[i + 1]) {
      assert DependsOn(g, p[i + 1], p[i + 2]);
    }
    ClosedAlongPaths(g, st.Done(), q);
  }

  lemma RoundKeepsClosed(g: NodeDict, stageMap: set<string>, st: RunState, inp: RoundInput, next: RunState)
    requires DependencyClosed(g, st.Done()) && RoundEffect(g, stageMap, st, inp, next)
    ensures DependencyClosed(g, next.Done()) && st.Done() <= next.Done()
  {
    forall n, d | n in next.Done() && DependsOn(g, n, d) ensures d in next.Done() {
      assert n in st.Done() || n in Ready(g, st);
      assert d in st.Done();
    }
  }

  lemma {:induction false} DoneStaysClosed(g: NodeDict, stageMap: set<string>, st: RunState, inputs: nat -> RoundInput, i: nat)
    requires g.Valid() && DependencyClosed(g, st.Done())
    requires After(g, stageMap, st, inputs, i).Some? && NoRedirectBefore(g, stageMap, st, inputs, i)
    ensures DependencyClosed(g, After(g, stageMap, st, inputs, i).value.Done())
    ensures st.Done() <= After(g, stageMap, st, inputs, i).value.Done()
  {
    StartState(g, stageMap, st, inputs);
    hide *;
    if i > 0 {
      var before := StepBack(g, stageMap, st, inputs, i);
      DoneStaysClosed(g, stageMap, st, inputs, i - 1);
      RoundHasEffect(g, stageMap, before, inputs(i - 1));
      RoundKeepsClosed(g, stageMap, before, inputs(i - 1), After(g, stageMap, st, inputs, i).value);
    }
  }

  // ---------------------------------------------------------------- the state a run ends in

  /** The round that ends a run may still execute ready stages, once each, and complete or skip them. */
  ghost predicate LeaveEffect(g: NodeDict, st: RunState, next: RunState) {
    && st.Done() <= next.Done()
    && (forall n :: n in next.Done() ==> n in st.Done() || n in Ready(g, st))
    && (forall n :: next.Count(n) == st.Count(n) || (next.Count(n) == st.Count(n) + 1 && n in Ready(g, st)))
  }

  lemma {:induction false} CollectOnlyCompletes(st: RunState, inp: RoundInput, launched: seq<string>)
    ensures var next := Collect(st, inp, launched).state;
            && next.skipped == st.skipped && next.counts == st.counts && st.completed <= next.completed
            && forall n :: n in next.completed ==> n in st.completed || n in launched
  {
    if launched != [] {
      CollectOnlyCompletes(st, inp, launched[..|launched| - 1]);
      assert launched == launched[..|launched| - 1] + [Last(launched)];
    }
  }

  lemma LeavingRoundHasEffect(g: NodeDict, stageMap: set<string>, st: RunState, inp: RoundInput)
    requires g.Valid() && Round(g, stageMap, st, inp).Leave?
    ensures LeaveEffect(g, st, Round(g, stageMap, st, inp).state)
  {
    var ready, next := Ready(g, st), Round(g, stageMap, st, inp).state;
    if inp.cancelled || ready == [] {
      assert next == st;
    } else if |ready| == 1 {
      assert ready[0] in ready;
      hide Ready, ReadyAmong;
    } else {
      assert next == ParallelRound(stageMap, st, inp, ready).state;
      hide Round, Ready, ReadyAmong, ParallelRound;
      LeavingParallelRound(stageMap, st, inp, ready);
    }
  }

  lemma LeavingParallelRound(stageMap: set<string>, st: RunState, inp: RoundInput, ready: seq<string>)
    requires Distinct(ready)
    ensures var next := ParallelRound(stageMap, st, inp, ready).state;
            && st.Done() <= next.Done()
            && (forall n :: n in next.Done() ==> n in st.Done() || n in ready)
            && (forall n :: next.Count(n) == st.Count(n) || (next.Count(n) == st.Count(n) + 1 && n in ready))
  {
    var launched := Launch(stageMap, st, inp, ready);
    LaunchHasEffect(stageMap, st, inp, ready);
    CollectOnlyCompletes(launched, inp, Launched(stageMap, inp, ready));
    hide Collect, Launch, Launched;
    forall n ensures launched.Count(n) == st.Count(n) || (launched.Count(n) == st.Count(n) + 1 && n in ready) {
      assert launched.Count(n) == st.Count(n) + if RunsStage(stageMap, inp, ready, n) then 1 else 0;
    }
  }

  lemma LeavingKeepsClosed(g: NodeDict, st: RunState, next: RunState)
    requires DependencyClosed(g, st.Done()) && LeaveEffect(g, st, next)
    ensures DependencyClosed(g, next.Done())
  {
    forall n, d | n in next.Done() && DependsOn(g, n, d) ensures d in next.Done() {
      assert n in st.Done() || n in Ready(g, st);
      assert d in st.Done();
    }
  }

  /** Under any cap, a run without redirects ends in a dependency-closed state: what a resumed run starts from. */
  lemma RunEndsClosed(g: NodeDict, stageMap: set<string>, st: RunState, inputs: nat -> RoundInput, cap: nat)
    requires g.Valid() && DependencyClosed(g, st.Done()) && NoRedirectBefore(g, stageMap, st, inputs, cap)
    ensures var e := RunFrom(g, stageMap, st, inputs, 0, cap);
            DependencyClosed(g, e.state.Done()) && st.Done() <= e.state.Done()
  {
    hide *;
    var i := LastRound(g, stageMap, st, inputs, cap);
    var e, last := RunFrom(g, stageMap, st, inputs, 0, cap), After(g, stageMap, st, inputs, i).value;
    DoneStaysClosed(g, stageMap, st, inputs, i);
    if e.exit.Some? {
      LeavingRoundHasEffect(g, stageMap, last, inputs(i));
      LeavingKeepsClosed(g, last, e.state);
      LeavingKeepsDone(g, last, e.state);
    }
  }

  lemma LeavingKeepsDone(g: NodeDict, st: RunState, next: RunState)
    requires LeaveEffect(g, st, next)
    ensures st.Done() <= next.Done()
  {
  }

  lemma LeavingKeepsLimit(g: NodeDict, start: RunState, st: RunState, next: RunState, n: string)
    requires g.Valid() && n in g.at && WithinLimit(g, start, st, n) && LeaveEffect(g, st, next)
    ensures next.Count(n) <= ExecutionLimit(g, start, n)
  {
    assert n in Ready(g, st) <==> n in g.keys && IsReady(g, n, st.completed, {}, st.failed, st.skipped, st.counts);
  }

  lemma LimitMeans(g: NodeDict, start: RunState, st: RunState, n: string)
    requires n in g.at && WithinLimit(g, start, st, n)
    ensures st.Count(n) <= ExecutionLimit(g, start, n)
  {
  }

  /** Under any cap, when a run without redirects has ended no stage has been executed beyond its limit. */
  lemma RunEndsWithinLimit(g: NodeDict, stageMap: set<string>, st: RunState, inputs: nat -> RoundInput, cap: nat, n: string)
    requires g.Valid() && n in g.at && NoRedirectBefore(g, stageMap, st, inputs, cap)
    ensures RunFrom(g, stageMap, st, inputs, 0, cap).state.Count(n) <= ExecutionLimit(g, st, n)
  {
    hide *;
    var i := LastRound(g, stageMap, st, inputs, cap);
    var e, last := RunFrom(g, stageMap, st, inputs, 0, cap), After(g, stageMap, st, inputs, i).value;
    ExecutionsAreLimited(g, stageMap, st, inputs, i, n);
    LimitMeans(g, st, last, n);
    if e.exit.Some? {
      LeavingRoundHasEffect(g, stageMap, last, inputs(i));
      LeavingKeepsLimit(g, st, last, e.state, n);
    }
  }

  /**
   * Over a whole run without redirects, a stage is offered for execution only when everything it depends on,
   * directly or not, is done; and stages offered together never depend on each other.
   */
  lemma StagesRunInOrder(g: NodeDict, stageMap: set<string>, st: RunState, inputs: nat -> RoundInput, i: nat, n: string, a: string)
    requires g.Valid() && DependencyClosed(g, st.Done())
    requires After(g, stageMap, st, inputs, i).Some? && NoRedirectBefore(g, stageMap, st, inputs, i)
    requires n in Ready(g, After(g, stageMap, st, inputs, i).value) && Reaches(g, n, a)
    ensures a in After(g, stageMap, st, inputs, i).value.Done()
    ensures a !in Ready(g, After(g, stageMap, st, inputs, i).value)
  {
    DoneStaysClosed(g, stageMap, st, inputs, i);
    ReadyDependsOnDone(g, After(g, stageMap, st, inputs, i).value, n, a);
  }

  // ---------------------------------------------------------------- runs in which nothing goes wrong

  ghost predicate Smooth(inp: RoundInput) {
    !inp.cancelled && forall n :: inp.outcome(n).Succeeded? && inp.gatePasses(n)
  }

  function Undone(g: NodeDict, st: RunState): set<string> {
    set n | n in g.at && n !in st.Done()
  }

  lemma SmoothRound(g: NodeDict, stageMap: set<string>, st: RunState, inp: RoundInput)
    requires g.Valid() && WellFormed(g) && Smooth(inp) && st.failed == {}
    ensures var r := Round(g, stageMap, st, inp);
            && (r.Leave? ==> r == Leave(st, Finished) && AllDone(g, st))
            && (r.Continue? ==> r.state.failed == {} && |Undone(g, r.state)| < |Undone(g, st)|)
  {
    var ready, r := Ready(g, st), Round(g, stageMap, st, inp);
    FinishedExactly(g, stageMap, st, inp);
    CollectNeverLeaves(Launch(stageMap, st, inp, ready), inp, Launched(stageMap, inp, ready));
    if r.Continue? {
      RoundHasEffect(g, stageMap, st, inp);
      var n := ready[0];
      assert n in ready;
      assert n in r.state.Done() by {
        if !SkipsStage(stageMap, inp, n) { assert RunsStage(stageMap, inp, ready, n); }
      }
      assert st.Done() <= r.state.Done();
      assert n in Undone(g, st) && Undone(g, r.state) <= Undone(g, st) - {n};
      SubsetIsSmaller(Undone(g, r.state), Undone(g, st) - {n});
    }
  }

  lemma {:induction false} SubsetIsSmaller<T>(a: set<T>, b: set<T>)
    requires a <= b
    ensures |a| <= |b|
  {
    assert b == a + (b - a);
  }

  lemma {:induction false} CollectNeverLeaves(st: RunState, inp: RoundInput, launched: seq<string>)
    requires Smooth(inp)
    ensures Collect(st, inp, launched).Continue?
  {
    if launched != [] {
      CollectNeverLeaves(st, inp, launched[..|launched| - 1]);
    }
  }

  lemma {:induction false} SmoothProgress(g: NodeDict, stageMap: set<string>, st: RunState, inputs: nat -> RoundInput, i: nat)
    requires g.Valid() && WellFormed(g) && st.failed == {} && forall j: nat :: Smooth(inputs(j))
    requires After(g, stageMap, st, inputs, i).Some?
    ensures var now := After(g, stageMap, st, inputs, i).value;
            now.failed == {} && |Undone(g, now)| + i <= |Undone(g, st)|
  {
    StartState(g, stageMap, st, inputs);
    hide *;
    if i > 0 {
      var before := StepBack(g, stageMap, st, inputs, i);
      SmoothProgress(g, stageMap, st, inputs, i - 1);
      SmoothRound(g, stageMap, before, inputs(i - 1));
    }
  }

  /** On a valid graph a run in which every stage succeeds or is skipped does all of them within n + 1 rounds. */
  lemma SmoothRunsFinish(g: NodeDict, stageMap: set<string>, st: RunState, inputs: nat -> RoundInput, cap: nat)
    requires g.Valid() && WellFormed(g) && st.failed == {} && forall j: nat :: Smooth(inputs(j))
    requires cap > |g.keys|
    ensures var e := RunFrom(g, stageMap, st, inputs, 0, cap);
            e.exit == Some(Finished) && AllDone(g, e.state) && e.rounds <= |g.keys| + 1
  {
    var i := LastRound(g, stageMap, st, inputs, cap);
    UndoneAtMostAll(g, st);
    SmoothProgress(g, stageMap, st, inputs, i);
    SmoothRound(g, stageMap, After(g, stageMap, st, inputs, i).value, inputs(i));
    hide *;
  }

  lemma UndoneAtMostAll(g: NodeDict, st: RunState)
    requires g.Valid()
    ensures |Undone(g, st)| <= |g.keys|
  {
    DistinctSize(g.keys);
    SubsetIsSmaller(Undone(g, st), ToSet(g.keys));
  }

  lemma {:induction false} DistinctSize(s: seq<string>)
    requires Distinct(s)
    ensures |ToSet(s)| == |s|
  {
    if s != [] {
      var init := s[..|s| - 1];
      DistinctSize(init);
      assert ToSet(s) == ToSet(init) + {Last(s)};
    }
  }

  // ---------------------------------------------------------------- failures that nothing can repair

  /** A failed stage with no executions left that no stage redirects to. */
  ghost predicate Exhausted(g: NodeDict, st: RunState, n: string) {
    && n in g.at && n in st.failed && n !in st.completed
    && st.Count(n) >= g.at[n].maxExecutions
    && forall m :: m in g.at ==> Redirect(g.at[m]) != Some(n)
  }

  lemma ExhaustedStaysInRound(g: NodeDict, stageMap: set<string>, st: RunState, inp: RoundInput, n: string)
    requires g.Valid() && Exhausted(g, st, n)
    ensures n !in Ready(g, st)
    ensures Round(g, stageMap, st, inp).Leave? ==> !Round(g, stageMap, st, inp).exit.Finished?
    ensures Round(g, stageMap, st, inp).Continue? ==> Exhausted(g, Round(g, stageMap, st, inp).state, n)
  {
    var ready, r := Ready(g, st), Round(g, stageMap, st, inp);
    assert n !in ready && n in st.failed && n !in st.completed;
    hide Ready, Launch, Launched, Collect;
    CollectOnlyAborts(Launch(stageMap, st, inp, ready), inp, Launched(stageMap, inp, ready));
    if r.Continue? {
      if Redirected(g, stageMap, st, inp) {
        assert ready[0] in ready;
        assert r.state.Count(n) == st.Count(n);
      } else {
        RoundHasEffect(g, stageMap, st, inp);
        assert r.state.Count(n) == st.Count(n);
      }
    }
  }

  /** Whatever happens later, redirects included, such a stage is never offered again and the run never finishes. */
  lemma {:induction false} ExhaustedFailureIsFinal(g: NodeDict, stageMap: set<string>, st: RunState, inputs: nat -> RoundInput, i: nat, n: string)
    requires g.Valid() && Exhausted(g, st, n) && After(g, stageMap, st, inputs, i).Some?
    ensures Exhausted(g, After(g, stageMap, st, inputs, i).value, n)
    ensures n !in Ready(g, After(g, stageMap, st, inputs, i).value)
    ensures Round(g, stageMap, After(g, stageMap, st, inputs, i).value, inputs(i)).Leave? ==>
              !Round(g, stageMap, After(g, stageMap, st, inputs, i).value, inputs(i)).exit.Finished?
  {
    StartState(g, stageMap, st, inputs);
    hide *;
    if i > 0 {
      var before := StepBack(g, stageMap, st, inputs, i);
      ExhaustedFailureIsFinal(g, stageMap, st, inputs, i - 1, n);
      ExhaustedStaysInRound(g, stageMap, before, inputs(i - 1), n);
    }
    ExhaustedStaysInRound(g, stageMap, After(g, stageMap, st, inputs, i).value, inputs(i), n);
  }

  /**
   * All stages done, yet the run is reported as stuck: exactly when a stage that failed was not completed
   * afterwards but skipped.
   */
  lemma StuckWithEverythingDone(g: NodeDict, stageMap: set<string>, st: RunState, inp: RoundInput)
    requires g.Valid() && AllDone(g, st) && !inp.cancelled && st.failed <= g.at.Keys
    ensures Round(g, stageMap, st, inp) == Leave(st, Stuck) <==> exists n :: n in st.failed && n in st.skipped - st.completed
    ensures Round(g, stageMap, st, inp) == Leave(st, Finished) <==> st.failed <= st.completed
  {
    NoneIsReady(g, st, g.keys);
    if st.failed <= st.completed {
    } else {
      var n :| n in st.failed && n !in st.completed;
      assert n in st.Done();
      assert n in st.skipped - st.completed;
    }
  }

  /** Two independent stages that may each run twice. */
  function PairOf(a: string, b: string): NodeDict {
    Dict([a, b], map[a := StageNode(a, Some([]), None, 2, 0), b := StageNode(b, Some([]), None, 2, 0)])
  }

  function AfterPartialFailure(a: string, b: string): RunState {
    RunState({b}, {a}, {}, FreshRun.Execute(a).Execute(b).counts)
  }

  lemma FirstRoundFailsOne(a: string, b: string, inp: RoundInput)
    requires a != b && !inp.cancelled && !inp.skips(a) && !inp.skips(b)
    requires inp.outcome(a) == Failed && inp.outcome(b) == Succeeded
    ensures Round(PairOf(a, b), {a, b}, FreshRun, inp) == Continue(AfterPartialFailure(a, b))
  {
    TwoReady(PairOf(a, b), FreshRun, a, b);
    assert Ready(PairOf(a, b), FreshRun) == [a, b];
    TwoCollected({a, b}, FreshRun, inp, a, b);
    assert FreshRun.completed + {b} == {b} && FreshRun.failed + {a} == {a};
  }

  lemma SecondRoundSkipsIt(a: string, b: string, inp: RoundInput)
    requires a != b && !inp.cancelled && inp.skips(a)
    ensures Round(PairOf(a, b), {a, b}, AfterPartialFailure(a, b), inp) == Continue(AfterPartialFailure(a, b).Skip(a))
  {
    var st := AfterPartialFailure(a, b);
    assert st.Count(a) == 1;
    TwoReady(PairOf(a, b), st, a, b);
  }

  lemma ThirdRoundIsStuck(a: string, b: string, inp: RoundInput)
    requires a != b && !inp.cancelled
    ensures Round(PairOf(a, b), {a, b}, AfterPartialFailure(a, b).Skip(a), inp) == Leave(AfterPartialFailure(a, b).Skip(a), Stuck)
  {
    var st := AfterPartialFailure(a, b).Skip(a);
    assert a in st.skipped && a in st.failed && a !in st.completed;
    TwoReady(PairOf(a, b), st, a, b);
  }

  /** Such a state is reached: two stages run together, one fails, and its condition excludes it from the retry. */
  lemma FailedThenSkippedIsStuck(a: string, b: string, inputs: nat -> RoundInput)
    requires a != b && forall i: nat :: !inputs(i).cancelled
    requires !inputs(0).skips(a) && !inputs(0).skips(b)
    requires inputs(0).outcome(a) == Failed && inputs(0).outcome(b) == Succeeded
    requires inputs(1).skips(a)
    ensures var e := RunFrom(PairOf(a, b), {a, b}, FreshRun, inputs, 0, 10);
            e.exit == Some(Stuck) && AllDone(PairOf(a, b), e.state)
  {
    hide Round;
    var g, sm, one := PairOf(a, b), {a, b}, AfterPartialFailure(a, b);
    FirstRoundFailsOne(a, b, inputs(0));
    SecondRoundSkipsIt(a, b, inputs(1));
    ThirdRoundIsStuck(a, b, inputs(2));
    assert RunFrom(g, sm, one.Skip(a), inputs, 2, 10) == Ending(one.Skip(a), Some(Stuck), 3);
    assert RunFrom(g, sm, one, inputs, 1, 10) == Ending(one.Skip(a), Some(Stuck), 3);
  }

  lemma TwoReady(g: NodeDict, st: RunState, a: string, b: string)
    requires g.keys == [a, b]
    ensures Ready(g, st) ==
              (if IsReady(g, a, st.completed, {}, st.failed, st.skipped, st.counts) then [a] else []) +
              (if IsReady(g, b, st.completed, {}, st.failed, st.skipped, st.counts) then [b] else [])
  {
    ReadyAppend(g, [], a, st.completed, {}, st.failed, st.skipped, st.counts);
    ReadyAppend(g, [a], b, st.completed, {}, st.failed, st.skipped, st.counts);
    assert [] + [a] == [a] && [a] + [b] == [a, b];
  }

  lemma TwoCollected(sm: set<string>, st: RunState, inp: RoundInput, a: string, b: string)
    requires a != b && a in sm && b in sm && !inp.skips(a) && !inp.skips(b)
    requires inp.outcome(a) == Failed && inp.outcome(b) == Succeeded
    ensures ParallelRound(sm, st, inp, [a, b])
            == Continue(RunState(st.completed + {b}, st.failed + {a}, st.skipped, st.Execute(a).Execute(b).counts))
  {
    var ready := [a, b];
    var first, second := st.Execute(a), st.Execute(a).Execute(b);
    assert ready[..1] == [a] && [a][..0] == [];
    assert Launch(sm, st, inp, []) == st && Launched(sm, inp, []) == [];
    assert Launch(sm, st, inp, [a]) == first && Launched(sm, inp, [a]) == [a];
    assert Launch(sm, st, inp, ready) == second && Launched(sm, inp, ready) == [a] + [b];
    hide Launch, Launched;
    assert [a] + [b] == ready;
    assert Collect(second, inp, []) == Continue(second);
    assert Collect(second, inp, [a]) == Continue(second.(failed := second.failed + {a}));
  }

  // ---------------------------------------------------------------- gates in parallel rounds

  ghost predicate DifferInGates(a: RoundInput, b: RoundInput) {
    a.cancelled == b.cancelled && forall n :: a.skips(n) == b.skips(n) && a.outcome(n) == b.outcome(n)
  }

  lemma {:induction false} LaunchIgnoresGates(stageMap: set<string>, st: RunState, a: RoundInput, b: RoundInput, ready: seq<string>)
    requires DifferInGates(a, b)
    ensures Launch(stageMap, st, a, ready) == Launch(stageMap, st, b, ready)
    ensures Launched(stageMap, a, ready) == Launched(stageMap, b, ready)
  {
    if ready != [] {
      LaunchIgnoresGates(stageMap, st, a, b, ready[..|ready| - 1]);
    }
  }

  lemma {:induction false} CollectIgnoresGates(st: RunState, a: RoundInput, b: RoundInput, launched: seq<string>)
    requires DifferInGates(a, b)
    ensures Collect(st, a, launched) == Collect(st, b, launched)
  {
    if launched != [] {
      CollectIgnoresGates(st, a, b, launched[..|launched| - 1]);
    }
  }

  /** Only a stage that is ready alone is held at its gate: what gates answer never changes any other round. */
  lemma OnlyLoneStagesMeetTheirGate(g: NodeDict, stageMap: set<string>, st: RunState, a: RoundInput, b: RoundInput)
    requires DifferInGates(a, b)
    ensures |Ready(g, st)| != 1 ==> Round(g, stageMap, st, a) == Round(g, stageMap, st, b)
    ensures |Ready(g, st)| == 1 && !a.cancelled && RunsStage(stageMap, a, Ready(g, st), Ready(g, st)[0]) &&
            a.outcome(Ready(g, st)[0]).Succeeded? ==>
              (Round(g, stageMap, st, a).Continue? <==> a.gatePasses(Ready(g, st)[0]))
  {
    var ready := Ready(g, st);
    LaunchIgnoresGates(stageMap, st, a, b, ready);
    CollectIgnoresGates(Launch(stageMap, st, a, ready), a, b, Launched(stageMap, a, ready));
  }

  // ---------------------------------------------------------------- a whole run replays linear mode

  lemma SmoothRoundDoesAllReady(g: NodeDict, stageMap: set<string>, st: RunState, inp: RoundInput)
    requires g.Valid() && Smooth(inp) && st.failed == {} && Round(g, stageMap, st, inp).Continue?
    ensures var next := Round(g, stageMap, st, inp).state;
            next.failed == {} && next.Done() == st.Done() + ToSet(Ready(g, st))
  {
    var ready, next := Ready(g, st), Round(g, stageMap, st, inp).state;
    RoundHasEffect(g, stageMap, st, inp);
    hide Round, Ready;
    forall n ensures n in next.Done() <==> n in st.Done() || n in ready {
      assert RunsStage(stageMap, inp, ready, n) <==> n in ready && !SkipsStage(stageMap, inp, n);
    }
  }

  lemma FollowedGroup(defs: seq<StageDef>, stages: seq<string>, st: RunState, i: nat)
    requires GraphFollowsGroups(defs, stages) && st.failed == {} && st.Done() == LinearDone(stages, defs, i)
    ensures ToSet(Ready(GraphOf(defs), st)) == LinearGroup(stages, defs, i)
  {
    hide ReadyAmong, LinearGroup, LinearDone, GraphOf;
    assert st.completed + st.skipped == LinearDone(stages, defs, i);
    assert ReadySet(GraphOf(defs), st.completed, st.skipped, st.counts) == LinearGroup(stages, defs, i);
  }

  /**
   * Whenever the two modes rank the stages alike, a graph run in which every stage succeeds or is skipped does in
   * its i-th round exactly the i-th group of linear mode, after exactly the groups before it.
   */
  lemma {:induction false} SmoothRunReplaysLinearMode(defs: seq<StageDef>, stages: seq<string>, stageMap: set<string>,
                                                      inputs: nat -> RoundInput, i: nat)
    requires OneOrderPerName(defs) && !NamesDependencies(defs) && ToSet(stages) == GraphRanks(defs).Keys
    requires SameRanking(GraphRanks(defs), LinearRanks(stages, defs))
    requires (forall j: nat :: Smooth(inputs(j))) && After(GraphOf(defs), stageMap, FreshRun, inputs, i).Some?
    ensures var now := After(GraphOf(defs), stageMap, FreshRun, inputs, i).value;
            && now.failed == {} && now.Done() == LinearDone(stages, defs, i)
            && ToSet(Ready(GraphOf(defs), now)) == LinearGroup(stages, defs, i)
  {
    hide *;
    var g := GraphOf(defs);
    InferredIsValid(defs);
    ModesAgreeIffSameRanking(defs, stages);
    if i == 0 {
      StartState(g, stageMap, FreshRun, inputs);
      NothingDoneYet(defs, stages);
    } else {
      var before := StepBack(g, stageMap, FreshRun, inputs, i);
      SmoothRunReplaysLinearMode(defs, stages, stageMap, inputs, i - 1);
      SmoothRoundDoesAllReady(g, stageMap, before, inputs(i - 1));
      LinearDoneStep(stages, defs, i);
    }
    FollowedGroup(defs, stages, After(g, stageMap, FreshRun, inputs, i).value, i);
  }

  lemma InferredIsValid(defs: seq<StageDef>)
    requires !NamesDependencies(defs)
    ensures GraphOf(defs).Valid()
  {
    InferredGraphIsValid(defs, Orders(defs), |Orders(defs)|);
  }

  lemma NothingDoneYet(defs: seq<StageDef>, stages: seq<string>)
    ensures FreshRun.failed == {} && FreshRun.Done() == LinearDone(stages, defs, 0)
  {
  }

  lemma LinearDoneStep(stages: seq<string>, defs: seq<StageDef>, i: nat)
    ensures i > 0 ==> LinearDone(stages, defs, i) == LinearDone(stages, defs, i - 1) + LinearGroup(stages, defs, i - 1)
  {
  }

  lemma SmoothRoundLeaves(g: NodeDict, stageMap: set<string>, st: RunState, inp: RoundInput)
    requires Smooth(inp) && st.failed == {}
    ensures Ready(g, st) == [] ==> Round(g, stageMap, st, inp) == Leave(st, Finished)
    ensures Ready(g, st) != [] ==> Round(g, stageMap, st, inp).Continue?
    ensures Ready(g, st) == [] <==> ToSet(Ready(g, st)) == {}
  {
    var ready := Ready(g, st);
    hide Ready;
    CollectNeverLeaves(Launch(stageMap, st, inp, ready), inp, Launched(stageMap, inp, ready));
    if ready != [] { assert ready[0] in ToSet(ready); }
  }

  lemma GroupsAreInhabited(stages: seq<string>, defs: seq<StageDef>, i: nat)
    ensures LinearGroup(stages, defs, i) != {} <==> i < |LinearKeys(stages, OrderMap(defs))|
  {
    var orders := OrderMap(defs);
    var ks := LinearKeys(stages, orders);
    if i < |ks| {
      var used := set s | s in stages :: LinearOrder(orders, s);
      assert ks[i] in used;
      var s :| s in stages && LinearOrder(orders, s) == ks[i];
      assert s in ToSet(StagesAt(stages, orders, ks[i]));
    }
  }

  /** In such a run, round i goes on exactly while there is an i-th group; later rounds are never reached. */
  lemma RoundPerGroup(defs: seq<StageDef>, stages: seq<string>, stageMap: set<string>, inputs: nat -> RoundInput, i: nat)
    requires OneOrderPerName(defs) && !NamesDependencies(defs) && ToSet(stages) == GraphRanks(defs).Keys
    requires SameRanking(GraphRanks(defs), LinearRanks(stages, defs)) && forall j: nat :: Smooth(inputs(j))
    requires After(GraphOf(defs), stageMap, FreshRun, inputs, i).Some?
    ensures var groups := |LinearKeys(stages, OrderMap(defs))|;
            var now := After(GraphOf(defs), stageMap, FreshRun, inputs, i).value;
            var r := Round(GraphOf(defs), stageMap, now, inputs(i));
            && i <= groups && now.Done() == LinearDone(stages, defs, i)
            && (i < groups ==> r.Continue?) && (i == groups ==> r == Leave(now, Finished))
  {
    hide *;
    RoundAtGroup(defs, stages, stageMap, inputs, i);
    if i > 0 {
      var before := StepBack(GraphOf(defs), stageMap, FreshRun, inputs, i);
      RoundAtGroup(defs, stages, stageMap, inputs, i - 1);
    }
  }

  lemma RoundAtGroup(defs: seq<StageDef>, stages: seq<string>, stageMap: set<string>, inputs: nat -> RoundInput, i: nat)
    requires OneOrderPerName(defs) && !NamesDependencies(defs) && ToSet(stages) == GraphRanks(defs).Keys
    requires SameRanking(GraphRanks(defs), LinearRanks(stages, defs)) && forall j: nat :: Smooth(inputs(j))
    requires After(GraphOf(defs), stageMap, FreshRun, inputs, i).Some?
    ensures var now := After(GraphOf(defs), stageMap, FreshRun, inputs, i).value;
            var r := Round(GraphOf(defs), stageMap, now, inputs(i));
            && now.Done() == LinearDone(stages, defs, i)
            && if i < |LinearKeys(stages, OrderMap(defs))| then r.Continue? else r == Leave(now, Finished)
  {
    hide *;
    SmoothRunReplaysLinearMode(defs, stages, stageMap, inputs, i);
    SmoothRoundLeaves(GraphOf(defs), stageMap, After(GraphOf(defs), stageMap, FreshRun, inputs, i).value, inputs(i));
    GroupsAreInhabited(stages, defs, i);
  }

  /** Such a run takes one round for each group and finishes in the next, with every group done. */
  lemma OneRoundPerGroup(defs: seq<StageDef>, stages: seq<string>, stageMap: set<string>, inputs: nat -> RoundInput, cap: nat)
    requires OneOrderPerName(defs) && !NamesDependencies(defs) && ToSet(stages) == GraphRanks(defs).Keys
    requires SameRanking(GraphRanks(defs), LinearRanks(stages, defs)) && forall j: nat :: Smooth(inputs(j))
    requires cap > |LinearKeys(stages, OrderMap(defs))|
    ensures var e, groups := RunFrom(GraphOf(defs), stageMap, FreshRun, inputs, 0, cap), |LinearKeys(stages, OrderMap(defs))|;
            && e.exit == Some(Finished) && e.rounds == groups + 1 && e.state.Done() == LinearDone(stages, defs, groups)
            && (e.ReportsLimit(cap) <==> cap == groups + 1)
  {
    var g := GraphOf(defs);
    var i := LastRound(g, stageMap, FreshRun, inputs, cap);
    RoundPerGroup(defs, stages, stageMap, inputs, i);
    RunEnds(g, stageMap, FreshRun, inputs, i, cap);
    hide *;
  }
}
