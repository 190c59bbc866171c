/** Rounds seen from outside: what a resumed run starts from, what a redirect re-opens, and why a round ends the run. */
module Resuming {
  import opened Prelude
  import opened StageGraph
  import opened LinearMode
  import opened GraphScheduler
  import opened SchedulerTheorems

  // ---------------------------------------------------------------- what stage rows leave behind

  /** The last row of its name. */
  ghost predicate IsLastRow(rows: seq<StageRow>, i: nat) {
    i < |rows| && forall j :: i < j < |rows| ==> rows[j].name != rows[i].name
  }

  /** A resumed run starts from exactly the completed and skipped stages and the stored counts, with no failures. */
  lemma {:induction false} ResumedMeans(rows: seq<StageRow>)
    ensures var st := Resumed(rows);
            && (forall n :: n in st.completed <==> exists row :: row in rows && row.name == n && row.status.Completed?)
            && (forall n :: n in st.skipped <==> exists row :: row in rows && row.name == n && row.status.Skipped?)
            && st.failed == {}
            && (forall i: nat :: IsLastRow(rows, i) ==> st.Count(rows[i].name) == rows[i].executionCount)
            && (forall n :: n !in RowNames(rows) ==> st.Count(n) == 0)
  {
    if rows != [] {
      var init, row := rows[..|rows| - 1], Last(rows);
      var before, st := Resumed(init), Resumed(rows);
      ResumedMeans(init);
      assert rows == init + [row];
      forall n ensures n in st.completed <==> exists r :: r in rows && r.name == n && r.status.Completed? {
        if r :| r in rows && r.name == n && r.status.Completed? { assert r in init || r == row; }
        if n in before.completed {
          var r :| r in init && r.name == n && r.status.Completed?;
          assert r in rows;
        }
        assert row in rows;
      }
      forall n ensures n in st.skipped <==> exists r :: r in rows && r.name == n && r.status.Skipped? {
        if r :| r in rows && r.name == n && r.status.Skipped? { assert r in init || r == row; }
        if n in before.skipped {
          var r :| r in init && r.name == n && r.status.Skipped?;
          assert r in rows;
        }
        assert row in rows;
      }
      forall i: nat | IsLastRow(rows, i) ensures st.Count(rows[i].name) == rows[i].executionCount {
        if i < |init| {
          assert rows[|init|].name != rows[i].name;
          assert forall j :: i < j < |init| ==> init[j] == rows[j];
          assert IsLastRow(init, i);
        }
      }
      forall n | n !in RowNames(rows) ensures st.Count(n) == 0 {
        assert row in rows && row.name in RowNames(rows);
        NamedBefore(init, row, n);
      }
    }
  }

  lemma NamedBefore(init: seq<StageRow>, row: StageRow, n: string)
    ensures n in RowNames(init + [row]) <==> n in RowNames(init) || n == row.name
  {
    assert row in init + [row];
    if n in RowNames(init) {
      var r :| r in init && r.name == n;
      assert r in init + [row];
    }
  }

  // ---------------------------------------------------------------- finished stages are left alone

  lemma {:induction false} DoneIsLeftAlone(g: NodeDict, stageMap: set<string>, st: RunState, inputs: nat -> RoundInput, i: nat, n: string)
    requires g.Valid() && n in st.Done()
    requires After(g, stageMap, st, inputs, i).Some? && NoRedirectBefore(g, stageMap, st, inputs, i)
    ensures var now := After(g, stageMap, st, inputs, i).value;
            n in now.Done() && n !in Ready(g, now) && now.Count(n) == st.Count(n)
  {
    hide *;
    StartState(g, stageMap, st, inputs);
    if i > 0 {
      var before := StepBack(g, stageMap, st, inputs, i);
      DoneIsLeftAlone(g, stageMap, st, inputs, i - 1, n);
      RoundHasEffect(g, stageMap, before, inputs(i - 1));
      EffectOutsideReady(g, stageMap, before, inputs(i - 1), After(g, stageMap, st, inputs, i).value, n);
    }
    DoneIsNotReady(g, After(g, stageMap, st, inputs, i).value, n);
  }

  lemma DoneIsNotReady(g: NodeDict, st: RunState, n: string)
    ensures n in st.Done() ==> n !in Ready(g, st)
  {
  }

  lemma EffectOutsideReady(g: NodeDict, stageMap: set<string>, st: RunState, inp: RoundInput, next: RunState, n: string)
    requires RoundEffect(g, stageMap, st, inp, next) && n !in Ready(g, st) && n in st.Done()
    ensures n in next.Done() && next.Count(n) == st.Count(n)
  {
    assert !RunsStage(stageMap, inp, Ready(g, st), n);
  }

  lemma LeavingOutsideReady(g: NodeDict, st: RunState, next: RunState, n: string)
    requires LeaveEffect(g, st, next) && n !in Ready(g, st)
    ensures next.Count(n) == st.Count(n)
  {
  }

  /**
   * Over a whole resumed run without redirects, a stage whose row is completed or skipped is never offered again,
   * and its count is what its last row says, at the start of every round and when the run has ended.
   */
  lemma FinishedStagesStayFinished(g: NodeDict, rows: seq<StageRow>, inputs: nat -> RoundInput, cap: nat, i: nat, k: nat)
    requires g.Valid() && NoRedirectBefore(g, RowNames(rows), Resumed(rows), inputs, cap) && i <= cap
    requires IsLastRow(rows, k)
    requires exists row :: row in rows && row.name == rows[k].name && (row.status.Completed? || row.status.Skipped?)
    ensures After(g, RowNames(rows), Resumed(rows), inputs, i).Some? ==>
              && rows[k].name !in Ready(g, After(g, RowNames(rows), Resumed(rows), inputs, i).value)
              && After(g, RowNames(rows), Resumed(rows), inputs, i).value.Count(rows[k].name) == rows[k].executionCount
    ensures RunFrom(g, RowNames(rows), Resumed(rows), inputs, 0, cap).state.Count(rows[k].name) == rows[k].executionCount
  {
    var st, stageMap, n := Resumed(rows), RowNames(rows), rows[k].name;
    ResumedMeans(rows);
    assert st.Count(n) == rows[k].executionCount;
    assert n in st.Done();
    hide *;
    var last := LastRound(g, stageMap, st, inputs, cap);
    DoneIsLeftAlone(g, stageMap, st, inputs, last, n);
    var e := RunFrom(g, stageMap, st, inputs, 0, cap);
    if e.exit.Some? {
      LeavingRoundHasEffect(g, stageMap, After(g, stageMap, st, inputs, last).value, inputs(last));
      LeavingOutsideReady(g, After(g, stageMap, st, inputs, last).value, e.state, n);
    }
    if After(g, stageMap, st, inputs, i).Some? {
      NoRedirectEarlier(g, stageMap, st, inputs, i, cap);
      DoneIsLeftAlone(g, stageMap, st, inputs, i, n);
    }
  }

  // ---------------------------------------------------------------- redirects

  /** A redirect takes the target out of the completed and failed stages, records the failure, and changes nothing else. */
  lemma RedirectExactly(g: NodeDict, stageMap: set<string>, st: RunState, inp: RoundInput, n: string, target: string)
    requires g.Valid() && !inp.cancelled && Ready(g, st) == [n] && n in stageMap && !inp.skips(n) && inp.outcome(n).Failed?
    requires g.at[n].onFailure == Some(target) && target != "" && target in stageMap
    ensures Redirected(g, stageMap, st, inp)
    ensures var r := Round(g, stageMap, st, inp);
            && r.Continue?
            && r.state.completed == st.completed - {target}
            && r.state.failed == (st.failed + {n}) - {target}
            && r.state.skipped == st.skipped
            && forall x :: r.state.Count(x) == st.Count(x) + if x == n then 1 else 0
  {
    assert n in Ready(g, st);
    hide Ready;
  }

  /** Whatever its count, the target is offered next exactly when it is a stage, is not skipped, and its dependencies are done. */
  lemma RedirectReopensTarget(g: NodeDict, stageMap: set<string>, st: RunState, inp: RoundInput, n: string, target: string)
    requires g.Valid() && !inp.cancelled && Ready(g, st) == [n] && n in stageMap && !inp.skips(n) && inp.outcome(n).Failed?
    requires g.at[n].onFailure == Some(target) && target != "" && target in stageMap
    ensures var next := Round(g, stageMap, st, inp).state;
            target in Ready(g, next) <==>
              && target in g.at && target !in st.skipped
              && forall d :: d in g.at[target].Deps() ==> d in next.completed || d in next.skipped
  {
    RedirectExactly(g, stageMap, st, inp, n, target);
    hide Round;
  }

  // ---------------------------------------------------------------- why a round ends the run

  /** With one ready stage that runs: what its outcome makes of the run. */
  lemma LoneStageExactly(g: NodeDict, stageMap: set<string>, st: RunState, inp: RoundInput, n: string)
    requires g.Valid() && !inp.cancelled && Ready(g, st) == [n] && n in stageMap && !inp.skips(n)
    ensures var r := Round(g, stageMap, st, inp);
            && (forall x :: r.state.Count(x) == st.Count(x) + if x == n then 1 else 0) && r.state.skipped == st.skipped
            && (inp.outcome(n).Succeeded? ==>
                  && r.state.completed == st.completed + {n} && r.state.failed == st.failed
                  && (if inp.gatePasses(n) then r.Continue? else r == Leave(r.state, Aborted(n))))
            && (inp.outcome(n).Failed? && !Redirected(g, stageMap, st, inp) ==>
                  r == Leave(r.state, StageFailed(n)) && r.state.completed == st.completed && r.state.failed == st.failed + {n})
            && (inp.outcome(n).Raised? || inp.outcome(n).NoChanges? ==>
                  r == Leave(r.state, Aborted(n)) && r.state.completed == st.completed && r.state.failed == st.failed)
  {
    assert n in Ready(g, st);
    hide Ready;
  }

  /** The first of the stages that a parallel round runs whose result is without changes. */
  ghost predicate StopsCollecting(stageMap: set<string>, inp: RoundInput, ready: seq<string>, i: nat) {
    && i < |ready| && RunsStage(stageMap, inp, ready, ready[i]) && inp.outcome(ready[i]).NoChanges?
    && forall j :: 0 <= j < i && RunsStage(stageMap, inp, ready, ready[j]) ==> !inp.outcome(ready[j]).NoChanges?
  }

  ghost predicate NoneStops(stageMap: set<string>, inp: RoundInput, ready: seq<string>) {
    forall n :: RunsStage(stageMap, inp, ready, n) ==> !inp.outcome(n).NoChanges?
  }

  lemma NoneStopsAdd(stageMap: set<string>, inp: RoundInput, init: seq<string>, last: string)
    ensures NoneStops(stageMap, inp, init + [last]) <==>
              NoneStops(stageMap, inp, init) && (SkipsStage(stageMap, inp, last) || !inp.outcome(last).NoChanges?)
  {
    hide SkipsStage;
    assert last in init + [last];
    assert forall n :: RunsStage(stageMap, inp, init + [last], n) <==>
                         RunsStage(stageMap, inp, init, n) || (n == last && !SkipsStage(stageMap, inp, last));
  }

  lemma FirstStop(stageMap: set<string>, inp: RoundInput, init: seq<string>, last: string)
    requires NoneStops(stageMap, inp, init) && !SkipsStage(stageMap, inp, last) && inp.outcome(last).NoChanges?
    ensures StopsCollecting(stageMap, inp, init + [last], |init|) && (init + [last])[|init|] == last
  {
    var ready := init + [last];
    forall j | 0 <= j < |init| && RunsStage(stageMap, inp, ready, ready[j]) ensures !inp.outcome(ready[j]).NoChanges? {
      assert ready[j] in init && RunsStage(stageMap, inp, init, ready[j]);
    }
  }

  lemma {:induction false} CollectStopsExactly(stageMap: set<string>, st: RunState, inp: RoundInput, ready: seq<string>)
    ensures var r := Collect(st, inp, Launched(stageMap, inp, ready));
            && (r.Continue? <==> NoneStops(stageMap, inp, ready))
            && (r.Leave? ==> exists i: nat :: StopsCollecting(stageMap, inp, ready, i) && r.exit == Aborted(ready[i]))
  {
    if ready != [] {
      var init, last := ready[..|ready| - 1], Last(ready);
      CollectStopsExactly(stageMap, st, inp, init);
      assert ready == init + [last];
      var launched := Launched(stageMap, inp, init);
      var before := Collect(st, inp, launched);
      NoneStopsAdd(stageMap, inp, init, last);
      assert Launched(stageMap, inp, ready) == launched + if SkipsStage(stageMap, inp, last) then [] else [last];
      assert launched + [] == launched;
      hide StopsCollecting, NoneStops, Collect, SkipsStage, Launched;
      if before.Leave? {
        var i: nat :| StopsCollecting(stageMap, inp, init, i) && before.exit == Aborted(init[i]);
        EarlierStop(stageMap, inp, init, last, i);
        CollectAfterStop(st, inp, launched, last);
      } else if !SkipsStage(stageMap, inp, last) {
        CollectOneMore(st, inp, launched, last);
        if inp.outcome(last).NoChanges? {
          FirstStop(stageMap, inp, init, last);
        }
      }
    }
  }

  lemma EarlierStop(stageMap: set<string>, inp: RoundInput, init: seq<string>, last: string, i: nat)
    requires StopsCollecting(stageMap, inp, init, i)
    ensures StopsCollecting(stageMap, inp, init + [last], i) && (init + [last])[i] == init[i]
  {
    var ready := init + [last];
    forall j | 0 <= j <= i ensures ready[j] == init[j] && ready[j] in init && ready[j] in ready {
      assert init[j] in init;
    }
  }

  lemma CollectAfterStop(st: RunState, inp: RoundInput, launched: seq<string>, last: string)
    requires Collect(st, inp, launched).Leave?
    ensures Collect(st, inp, launched + [last]) == Collect(st, inp, launched)
  {
    assert (launched + [last])[..|launched|] == launched;
  }

  lemma CollectOneMore(st: RunState, inp: RoundInput, launched: seq<string>, last: string)
    requires Collect(st, inp, launched).Continue?
    ensures var before, r := Collect(st, inp, launched), Collect(st, inp, launched + [last]);
            && (r.Leave? <==> inp.outcome(last).NoChanges?)
            && (r.Leave? ==> r.exit == Aborted(last))
  {
    assert (launched + [last])[..|launched|] == launched;
  }

  /** Why a round ends the run, without looking at how it is computed. */
  lemma LeavesExactly(g: NodeDict, stageMap: set<string>, st: RunState, inp: RoundInput)
    requires g.Valid()
    ensures var r, ready := Round(g, stageMap, st, inp), Ready(g, st);
            && (inp.cancelled ==> r == Leave(st, Cancelled))
            && (!inp.cancelled && ready == [] ==> r == Leave(st, if forall n :: n in st.failed ==> n in st.completed then Finished else Stuck))
            && (!inp.cancelled && |ready| == 1 && (ready[0] !in stageMap || inp.skips(ready[0])) ==>
                  r == Continue(st.(skipped := st.skipped + {ready[0]})))
            && (!inp.cancelled && |ready| > 1 ==>
                  (r.Continue? <==> forall n :: n in ready && n in stageMap && !inp.skips(n) ==> !inp.outcome(n).NoChanges?))
            && (!inp.cancelled && |ready| > 1 && r.Leave? ==>
                  exists i: nat :: StopsCollecting(stageMap, inp, ready, i) && r.exit == Aborted(ready[i]))
  {
    var ready := Ready(g, st);
    if ready != [] { assert ready[0] in ready; }
    hide Ready, Collect, Launch, Launched, StopsCollecting;
    CollectStopsExactly(stageMap, Launch(stageMap, st, inp, ready), inp, ready);
  }

  /** A parallel round that goes on: absent and excluded stages are skipped, each other one is executed once. */
  lemma ParallelRoundExactly(g: NodeDict, stageMap: set<string>, st: RunState, inp: RoundInput)
    requires g.Valid() && |Ready(g, st)| > 1 && Round(g, stageMap, st, inp).Continue?
    ensures var ready, next := Ready(g, st), Round(g, stageMap, st, inp).state;
            forall n ::
              && (n in next.skipped <==> n in st.skipped || (n in ready && (n !in stageMap || inp.skips(n))))
              && (n in next.completed <==> n in st.completed || (n in ready && n in stageMap && !inp.skips(n) && inp.outcome(n).Succeeded?))
              && (n in next.failed <==>
                    (n in st.failed || (n in ready && n in stageMap && !inp.skips(n) && (inp.outcome(n).Failed? || inp.outcome(n).Raised?))))
              && next.Count(n) == st.Count(n) + if n in ready && n in stageMap && !inp.skips(n) then 1 else 0
  {
    RoundHasEffect(g, stageMap, st, inp);
    hide Round, Ready;
    assert forall n :: RunsStage(stageMap, inp, Ready(g, st), n) <==> n in Ready(g, st) && n in stageMap && !inp.skips(n);
  }
}
