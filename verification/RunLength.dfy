/** How many rounds a run takes, and which runs are reported as exceeding their iteration limit. */
module RunLength {
  import opened Prelude
  import opened StageGraph
  import opened LinearMode
  import opened GraphScheduler
  import opened SchedulerTheorems

  // ---------------------------------------------------------------- any run that finishes

  lemma {:induction false} ReachedBefore(g: NodeDict, stageMap: set<string>, st: RunState, inputs: nat -> RoundInput, i: nat, j: nat)
    requires j <= i && After(g, stageMap, st, inputs, i).Some?
    ensures After(g, stageMap, st, inputs, j).Some?
    decreases i
  {
    hide *;
    if j < i {
      var before := StepBack(g, stageMap, st, inputs, i);
      ReachedBefore(g, stageMap, st, inputs, i - 1, j);
    }
  }

  /** With the same inputs, a cap decides nothing but where a run is cut off. */
  lemma CapOnlyCuts(g: NodeDict, stageMap: set<string>, st: RunState, inputs: nat -> RoundInput, cap: nat, other: nat)
    requires RunFrom(g, stageMap, st, inputs, 0, cap).exit.Some?
    ensures var e, f := RunFrom(g, stageMap, st, inputs, 0, cap), RunFrom(g, stageMap, st, inputs, 0, other);
            && e.rounds > 0
            && (other >= e.rounds ==> f == e)
            && (other < e.rounds ==> f.exit == None && f.rounds == other && After(g, stageMap, st, inputs, other) == Some(f.state))
  {
    hide *;
    var e := RunFrom(g, stageMap, st, inputs, 0, cap);
    StartState(g, stageMap, st, inputs);
    RunEnds(g, stageMap, st, inputs, 0, cap);
    var i := e.rounds - 1;
    if other > i {
      RunReaches(g, stageMap, st, inputs, i, other);
      LastStep(g, stageMap, After(g, stageMap, st, inputs, i).value, inputs, i, other);
    } else {
      ReachedBefore(g, stageMap, st, inputs, i, other);
      RunReaches(g, stageMap, st, inputs, other, other);
      CutOff(g, stageMap, After(g, stageMap, st, inputs, other).value, inputs, other);
    }
  }

  lemma LastStep(g: NodeDict, stageMap: set<string>, st: RunState, inputs: nat -> RoundInput, i: nat, cap: nat)
    requires i < cap && Round(g, stageMap, st, inputs(i)).Leave?
    ensures var r := Round(g, stageMap, st, inputs(i));
            RunFrom(g, stageMap, st, inputs, i, cap) == Ending(r.state, Some(r.exit), i + 1)
  {
    hide Round;
  }

  lemma CutOff(g: NodeDict, stageMap: set<string>, st: RunState, inputs: nat -> RoundInput, cap: nat)
    ensures RunFrom(g, stageMap, st, inputs, cap, cap) == Ending(st, None, cap)
  {
    hide Round;
  }

  /**
   * A run that can finish, with whatever failures and redirects, finishes exactly under the caps that its rounds
   * reach, and is reported as exceeding its limit also under the cap that it reaches exactly.
   */
  lemma FinishingRunIsReportedExactly(g: NodeDict, stageMap: set<string>, st: RunState, inputs: nat -> RoundInput, cap: nat, other: nat)
    requires RunFrom(g, stageMap, st, inputs, 0, cap).exit == Some(Finished)
    ensures var rounds, f := RunFrom(g, stageMap, st, inputs, 0, cap).rounds, RunFrom(g, stageMap, st, inputs, 0, other);
            && (f.exit == Some(Finished) <==> other >= rounds)
            && (f.ReportsLimit(other) <==> other <= rounds)
  {
    CapOnlyCuts(g, stageMap, st, inputs, cap, other);
    hide RunFrom;
  }

  /** On a valid graph such a run has everything done one round before it finishes, so two caps report it nevertheless. */
  lemma DoneRunsAreReported(g: NodeDict, stageMap: set<string>, st: RunState, inputs: nat -> RoundInput, cap: nat, other: nat)
    requires g.Valid() && WellFormed(g)
    requires RunFrom(g, stageMap, st, inputs, 0, cap).exit == Some(Finished)
    requires other == RunFrom(g, stageMap, st, inputs, 0, cap).rounds || other == RunFrom(g, stageMap, st, inputs, 0, cap).rounds - 1
    ensures var f := RunFrom(g, stageMap, st, inputs, 0, other); f.ReportsLimit(other) && AllDone(g, f.state)
  {
    hide *;
    var rounds := RunFrom(g, stageMap, st, inputs, 0, cap).rounds;
    CapOnlyCuts(g, stageMap, st, inputs, cap, other);
    CapOnlyCuts(g, stageMap, st, inputs, cap, rounds - 1);
    LastStateIsDone(g, stageMap, st, inputs, cap);
    FinishingRunIsReportedExactly(g, stageMap, st, inputs, cap, other);
  }

  lemma LastStateIsDone(g: NodeDict, stageMap: set<string>, st: RunState, inputs: nat -> RoundInput, cap: nat)
    requires g.Valid() && WellFormed(g)
    requires RunFrom(g, stageMap, st, inputs, 0, cap).exit == Some(Finished)
    ensures var e := RunFrom(g, stageMap, st, inputs, 0, cap);
            AllDone(g, e.state) && e.rounds > 0 && After(g, stageMap, st, inputs, e.rounds - 1) == Some(e.state)
  {
    hide *;
    StartState(g, stageMap, st, inputs);
    RunEnds(g, stageMap, st, inputs, 0, cap);
    var i := RunFrom(g, stageMap, st, inputs, 0, cap).rounds - 1;
    var last := After(g, stageMap, st, inputs, i).value;
    LeavingKeepsState(g, stageMap, last, inputs(i));
    FinishedExactly(g, stageMap, last, inputs(i));
  }

  lemma LeavingKeepsState(g: NodeDict, stageMap: set<string>, st: RunState, inp: RoundInput)
    ensures var r := Round(g, stageMap, st, inp);
            r.Leave? && r.exit.Finished? ==> r.state == st && !inp.cancelled
  {
    var ready := Ready(g, st);
    CollectOnlyAborts(Launch(stageMap, st, inp, ready), inp, Launched(stageMap, inp, ready));
  }

  // ---------------------------------------------------------------- runs in which nothing goes wrong

  /** There is a chain of k stages that starts at `n` and goes on to a dependency each time. */
  ghost predicate ChainFrom(g: NodeDict, n: string, k: nat) {
    exists p :: IsPath(g, p) && p[0] == n && |p| == k
  }

  lemma ShorterChain(g: NodeDict, n: string, k: nat, j: nat)
    requires ChainFrom(g, n, k) && 0 < j <= k
    ensures ChainFrom(g, n, j)
  {
    var p :| IsPath(g, p) && p[0] == n && |p| == k;
    assert IsPath(g, p[..j]);
  }

  lemma LongerChain(g: NodeDict, n: string, d: string, k: nat)
    requires DependsOn(g, n, d) && ChainFrom(g, d, k)
    ensures ChainFrom(g, n, k + 1)
  {
    var p :| IsPath(g, p) && p[0] == d && |p| == k;
    var q := [n] + p;
    forall i | 0 <= i < |q| - 1 ensures DependsOn(g, q[i], q[i + 1]) {
      if i > 0 { assert DependsOn(g, p[i - 1], p[i]); }
    }
    assert IsPath(g, q);
  }

  lemma NextInChain(g: NodeDict, n: string, k: nat) returns (d: string)
    requires ChainFrom(g, n, k + 1) && k > 0
    ensures DependsOn(g, n, d) && ChainFrom(g, d, k)
  {
    var p :| IsPath(g, p) && p[0] == n && |p| == k + 1;
    d := p[1];
    assert DependsOn(g, p[0], p[1]);
    forall i | 0 <= i < |p[1..]| - 1 ensures DependsOn(g, p[1..][i], p[1..][i + 1]) {
      assert DependsOn(g, p[i + 1], p[i + 2]);
    }
    assert IsPath(g, p[1..]);
  }

  lemma ChainOfOne(g: NodeDict, n: string)
    ensures ChainFrom(g, n, 1)
  {
    assert IsPath(g, [n]);
  }

  /** The stages from which no chain of k + 1 stages starts. */
  ghost predicate DoneAreShallow(g: NodeDict, st: RunState, k: nat) {
    forall n :: n in g.at ==> (n in st.Done() <==> !ChainFrom(g, n, k + 1))
  }

  lemma NextLayer(g: NodeDict, st: RunState, next: RunState, k: nat)
    requires g.Valid() && WellFormed(g) && st.failed == {} && DoneAreShallow(g, st, k)
    requires next.Done() == st.Done() + ToSet(Ready(g, st))
    ensures DoneAreShallow(g, next, k + 1)
  {
    forall n | n in g.at ensures n in next.Done() <==> !ChainFrom(g, n, k + 2) {
      StageOfNextLayer(g, st, k, n);
    }
  }

  lemma StageOfNextLayer(g: NodeDict, st: RunState, k: nat, n: string)
    requires g.Valid() && WellFormed(g) && st.failed == {} && DoneAreShallow(g, st, k) && n in g.at
    ensures n in st.Done() || n in Ready(g, st) <==> !ChainFrom(g, n, k + 2)
  {
    assert n in Ready(g, st) <==> n !in st.Done() && forall d :: d in g.at[n].Deps() ==> d in st.Done();
    assert NodeRefersToKnown(g, n);
    hide ChainFrom, Ready, IsPath, Cyclic;
    if ChainFrom(g, n, k + 2) {
      ShorterChain(g, n, k + 2, k + 1);
      var d := NextInChain(g, n, k + 1);
      assert d in g.at[n].Deps() && d !in st.Done();
    } else if n !in st.Done() {
      forall d | d in g.at[n].Deps() ensures d in st.Done() {
        assert DependsOn(g, n, d);
        if ChainFrom(g, d, k + 1) { LongerChain(g, n, d, k + 1); }
      }
    }
  }

  /** After i rounds in which nothing goes wrong, exactly the stages with no chain of i + 1 stages are done. */
  lemma {:induction false} SmoothRunGoesByLayers(g: NodeDict, stageMap: set<string>, inputs: nat -> RoundInput, i: nat)
    requires g.Valid() && WellFormed(g) && forall j: nat :: Smooth(inputs(j))
    requires After(g, stageMap, FreshRun, inputs, i).Some?
    ensures var now := After(g, stageMap, FreshRun, inputs, i).value; now.failed == {} && DoneAreShallow(g, now, i)
  {
    hide *;
    if i == 0 {
      StartState(g, stageMap, FreshRun, inputs);
      NothingIsShallow(g);
    } else {
      var before := StepBack(g, stageMap, FreshRun, inputs, i);
      SmoothRunGoesByLayers(g, stageMap, inputs, i - 1);
      SmoothRoundDoesAllReady(g, stageMap, before, inputs(i - 1));
      NextLayer(g, before, After(g, stageMap, FreshRun, inputs, i).value, i - 1);
    }
  }

  lemma NothingIsShallow(g: NodeDict)
    ensures FreshRun.failed == {} && DoneAreShallow(g, FreshRun, 0)
  {
    forall n ensures ChainFrom(g, n, 1) {
      ChainOfOne(g, n);
    }
  }

  ghost predicate HasChain(g: NodeDict, k: nat) {
    exists n :: n in g.at && ChainFrom(g, n, k)
  }

  /** The longest chain of dependencies has `length` stages. */
  ghost predicate LongestChain(g: NodeDict, length: nat) {
    (length > 0 ==> HasChain(g, length)) && !HasChain(g, length + 1)
  }

  lemma ChainsAreNested(g: NodeDict, k: nat, j: nat)
    requires HasChain(g, k) && 0 < j <= k
    ensures HasChain(g, j)
  {
    var n :| n in g.at && ChainFrom(g, n, k);
    ShorterChain(g, n, k, j);
  }

  lemma AllDoneMeansNoChain(g: NodeDict, st: RunState, i: nat)
    requires DoneAreShallow(g, st, i)
    ensures AllDone(g, st) <==> !HasChain(g, i + 1)
  {
    hide ChainFrom;
  }

  /** Round i of such a run goes on exactly while some chain has more than i stages. */
  lemma RoundPerLayer(g: NodeDict, stageMap: set<string>, inputs: nat -> RoundInput, i: nat)
    requires g.Valid() && WellFormed(g) && forall j: nat :: Smooth(inputs(j))
    requires After(g, stageMap, FreshRun, inputs, i).Some?
    ensures var now := After(g, stageMap, FreshRun, inputs, i).value;
            var r := Round(g, stageMap, now, inputs(i));
            && (AllDone(g, now) <==> !HasChain(g, i + 1))
            && (if HasChain(g, i + 1) then r.Continue? else r == Leave(now, Finished))
            && (i > 0 ==> HasChain(g, i))
  {
    hide *;
    LayerLeaves(g, stageMap, inputs, i);
    if i > 0 {
      var before := StepBack(g, stageMap, FreshRun, inputs, i);
      LayerLeaves(g, stageMap, inputs, i - 1);
    }
  }

  lemma LayerLeaves(g: NodeDict, stageMap: set<string>, inputs: nat -> RoundInput, i: nat)
    requires g.Valid() && WellFormed(g) && forall j: nat :: Smooth(inputs(j))
    requires After(g, stageMap, FreshRun, inputs, i).Some?
    ensures var now := After(g, stageMap, FreshRun, inputs, i).value;
            var r := Round(g, stageMap, now, inputs(i));
            && (AllDone(g, now) <==> !HasChain(g, i + 1))
            && (if HasChain(g, i + 1) then r.Continue? else r == Leave(now, Finished))
  {
    hide *;
    var now := After(g, stageMap, FreshRun, inputs, i).value;
    SmoothRunGoesByLayers(g, stageMap, inputs, i);
    AllDoneMeansNoChain(g, now, i);
    SmoothRoundLeaves(g, stageMap, now, inputs(i));
    if AllDone(g, now) {
      NoneIsReady(g, now, g.keys);
      ReadyOfAll(g, now);
    } else {
      SomeStageIsReady(g, now);
    }
  }

  lemma ReadyOfAll(g: NodeDict, st: RunState)
    ensures Ready(g, st) == ReadyAmong(g, g.keys, st.completed, {}, st.failed, st.skipped, st.counts)
  {
  }

  /**
   * On a valid graph, a run in which nothing goes wrong takes one round for each stage of a longest chain and
   * one more to notice. It has everything done under every cap from the length of the chain on, and is reported
   * as exceeding its limit under every cap up to one more than that length.
   */
  lemma SmoothRunTakesLongestChain(g: NodeDict, stageMap: set<string>, inputs: nat -> RoundInput, length: nat, cap: nat)
    requires g.Valid() && WellFormed(g) && forall j: nat :: Smooth(inputs(j))
    requires LongestChain(g, length)
    ensures var e := RunFrom(g, stageMap, FreshRun, inputs, 0, cap);
            && e.rounds == (if cap <= length then cap else length + 1)
            && (e.exit == Some(Finished) <==> cap > length)
            && (AllDone(g, e.state) <==> cap >= length)
            && (e.ReportsLimit(cap) <==> cap <= length + 1)
  {
    var i := LastRound(g, stageMap, FreshRun, inputs, cap);
    RoundPerLayer(g, stageMap, inputs, i);
    RunEnds(g, stageMap, FreshRun, inputs, i, cap);
    LongestAmong(g, length, i);
    hide *;
  }

  lemma LongestAmong(g: NodeDict, length: nat, i: nat)
    requires LongestChain(g, length)
    ensures HasChain(g, i + 1) <==> i < length
    ensures i > 0 ==> (HasChain(g, i) <==> i <= length)
  {
    hide HasChain;
    if i < length {
      ChainsAreNested(g, length, i + 1);
      if i > 0 { ChainsAreNested(g, length, i); }
    } else {
      if HasChain(g, i + 1) { ChainsAreNested(g, i + 1, length + 1); }
      if i > length && HasChain(g, i) { ChainsAreNested(g, i, length + 1); }
    }
  }

  lemma SmoothInputs() returns (inputs: nat -> RoundInput)
    ensures forall j: nat :: Smooth(inputs(j))
  {
    inputs := (_: nat) => RoundInput(false, (_: string) => false, (_: string) => Succeeded, (_: string) => true);
  }

  /** Every valid graph has a longest chain, of at most all its stages. */
  lemma LongestChainExists(g: NodeDict) returns (length: nat)
    requires g.Valid() && WellFormed(g)
    ensures LongestChain(g, length) && length <= |g.keys|
  {
    var inputs := SmoothInputs();
    SmoothRunsFinish(g, {}, FreshRun, inputs, |g.keys| + 1);
    var i := LastRound(g, {}, FreshRun, inputs, |g.keys| + 1);
    RoundPerLayer(g, {}, inputs, i);
    RunEnds(g, {}, FreshRun, inputs, i, |g.keys| + 1);
    length := i;
    hide RunFrom, After, Round, HasChain;
  }

  lemma AtMostAllStages(g: NodeDict, length: nat)
    requires g.Valid() && WellFormed(g) && LongestChain(g, length)
    ensures length <= |g.keys| && (g.keys != [] ==> length > 0)
  {
    var other := LongestChainExists(g);
    LongestAmong(g, length, other);
    LongestAmong(g, other, length);
    if g.keys != [] {
      assert g.keys[0] in g.keys;
      ChainOfOne(g, g.keys[0]);
      assert HasChain(g, 1);
    }
    hide HasChain;
  }

  /**
   * The cap of the engine is a multiple of the number of stages. A run in which nothing goes wrong is reported as
   * exceeding it exactly for an empty graph, without iterations, with one iteration a stage for a graph whose
   * longest chain leaves out at most one stage, and with two for a graph of one stage.
   */
  lemma SmoothRunIsReportedExactly(g: NodeDict, stageMap: set<string>, inputs: nat -> RoundInput, length: nat, maxLoopIterations: nat)
    requires g.Valid() && WellFormed(g) && forall j: nat :: Smooth(inputs(j))
    requires LongestChain(g, length)
    ensures var n, cap := |g.keys|, maxLoopIterations * |g.keys|;
            RunFrom(g, stageMap, FreshRun, inputs, 0, cap).ReportsLimit(cap) <==>
              || n == 0 || maxLoopIterations == 0
              || (maxLoopIterations == 1 && n <= length + 1)
              || (maxLoopIterations == 2 && n == 1)
  {
    hide *;
    AtMostAllStages(g, length);
    SmoothRunTakesLongestChain(g, stageMap, inputs, length, maxLoopIterations * |g.keys|);
    CapArithmetic(|g.keys|, length, maxLoopIterations);
  }

  lemma CapArithmetic(n: nat, length: nat, m: nat)
    requires length <= n && (n > 0 ==> length > 0)
    ensures m * n <= length + 1 <==> n == 0 || m == 0 || (m == 1 && n <= length + 1) || (m == 2 && n == 1)
  {
    if m >= 3 && n > 0 {
      assert m * n == (m - 3) * n + 3 * n;
    }
  }
}
