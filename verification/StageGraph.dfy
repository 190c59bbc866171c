/** The stage dependency graph: readiness, failure redirects, topological listing and validation. */
module StageGraph {
  import opened Prelude

  /** A null `depends_on` stays null in the node; looping over it raises. */
  datatype StageNode = StageNode(
    name: string,
    dependsOn: Option<seq<string>>,
    onFailure: Option<string>,
    maxExecutions: int,
    order: int)
  {
    function Deps(): seq<string> {
      if dependsOn.Some? then dependsOn.value else []
    }
  }

  type NodeDict = Dict<StageNode>

  // ---------------------------------------------------------------- paths

  /** Some stage has null for its dependencies. */
  ghost predicate HasNullList(g: NodeDict) {
    exists n :: n in g.at && g.at[n].dependsOn.None?
  }

  ghost predicate DependsOn(g: NodeDict, a: string, b: string) {
    a in g.at && b in g.at[a].Deps()
  }

  ghost predicate IsPath(g: NodeDict, p: seq<string>) {
    |p| > 0 && forall i :: 0 <= i < |p| - 1 ==> DependsOn(g, p[i], p[i + 1])
  }

  ghost predicate PathFromTo(g: NodeDict, p: seq<string>, a: string, b: string) {
    IsPath(g, p) && |p| > 1 && p[0] == a && p[|p| - 1] == b
  }

  /** `a` depends on `b` through one or more edges. */
  ghost predicate Reaches(g: NodeDict, a: string, b: string) {
    exists p :: PathFromTo(g, p, a, b)
  }

  ghost predicate Cyclic(g: NodeDict) {
    exists n :: Reaches(g, n, n)
  }

  /** `n` lies on a dependency cycle or depends on one. */
  ghost predicate Doomed(g: NodeDict, n: string) {
    Reaches(g, n, n) || exists m :: Reaches(g, n, m) && Reaches(g, m, m)
  }

  lemma EdgeReaches(g: NodeDict, a: string, b: string)
    requires DependsOn(g, a, b)
    ensures Reaches(g, a, b)
  {
    assert PathFromTo(g, [a, b], a, b);
  }

  lemma ReachesTransitive(g: NodeDict, a: string, b: string, c: string)
    requires Reaches(g, a, b) && Reaches(g, b, c)
    ensures Reaches(g, a, c)
  {
    var p :| PathFromTo(g, p, a, b);
    var q :| PathFromTo(g, q, b, c);
    var r := p + q[1..];
    forall i | 0 <= i < |r| - 1
      ensures DependsOn(g, r[i], r[i + 1])
    {
      if i < |p| - 1 {
        assert DependsOn(g, p[i], p[i + 1]);
      } else {
        assert r[i] == q[i - |p| + 1];
        assert DependsOn(g, q[i - |p| + 1], q[i - |p| + 2]);
      }
    }
    assert PathFromTo(g, r, a, c);
  }

  lemma DoomSpreads(g: NodeDict, a: string, b: string)
    requires DependsOn(g, a, b) && Doomed(g, b)
    ensures Doomed(g, a)
  {
    EdgeReaches(g, a, b);
    if !Reaches(g, b, b) {
      var m :| Reaches(g, b, m) && Reaches(g, m, m);
      ReachesTransitive(g, a, b, m);
    }
  }

  /** An edge from the end of a path back to a node on it closes a cycle through that node. */
  lemma BackEdgeClosesCycle(g: NodeDict, stack: seq<string>, d: string)
    requires IsPath(g, stack) && d in stack && DependsOn(g, Last(stack), d)
    ensures Reaches(g, d, d)
  {
    var i :| 0 <= i < |stack| && stack[i] == d;
    assert PathFromTo(g, stack[i..] + [d], d, d);
  }

  /** Everything in `s` comes after those of its dependencies that `scope` names. */
  ghost predicate DepsFirst(g: NodeDict, s: seq<string>, scope: set<string>) {
    forall i, d :: 0 <= i < |s| && DependsOn(g, s[i], d) && d in scope ==> d in s[..i]
  }

  lemma {:induction false} PathDescends(g: NodeDict, s: seq<string>, scope: set<string>, p: seq<string>, i: nat, j: nat)
    requires DepsFirst(g, s, scope)
    requires IsPath(g, p) && |p| > 1 && forall k :: 0 <= k < |p| ==> p[k] in scope && p[k] in s
    requires i < |s| && p[0] == s[i]
    requires j < |s| && Last(p) == s[j] && Distinct(s)
    ensures j < i
    decreases |p|
  {
    assert DependsOn(g, p[0], p[1]);
    var k :| 0 <= k < i && s[k] == p[1];
    if |p| > 2 {
      var q := p[1..];
      forall m | 0 <= m < |q| - 1 ensures DependsOn(g, q[m], q[m + 1]) {
        assert DependsOn(g, p[m + 1], p[m + 2]);
      }
      PathDescends(g, s, scope, q, k, j);
    }
  }

  /** A dependencies-first listing of every known stage rules out cycles. */
  lemma DepsFirstIsAcyclic(g: NodeDict, s: seq<string>, scope: set<string>)
    requires Distinct(s) && DepsFirst(g, s, scope)
    requires g.at.Keys <= scope && forall n :: n in g.at ==> n in s
    ensures !Cyclic(g)
  {
    if Cyclic(g) {
      var n :| Reaches(g, n, n);
      var p :| PathFromTo(g, p, n, n);
      forall k | 0 <= k < |p| ensures p[k] in g.at {
        if k < |p| - 1 { assert DependsOn(g, p[k], p[k + 1]); } else { assert DependsOn(g, p[0], p[1]); }
      }
      var i :| 0 <= i < |s| && s[i] == n;
      PathDescends(g, s, scope, p, i, i);
    }
  }

  // ---------------------------------------------------------------- validation

  datatype GraphError =
    | UnknownDependency(stage: string, dependency: string)
    | UnknownRedirect(stage: string, target: string)
    | CycleInvolving(stage: string)

  /** An `on_failure` that is absent or empty counts as no redirect. */
  function Redirect(node: StageNode): Option<string> {
    if node.onFailure.Some? && node.onFailure.value != "" then node.onFailure else None
  }

  ghost predicate RefersToKnown(g: NodeDict) {
    forall n :: n in g.at ==> NodeRefersToKnown(g, n)
  }

  ghost predicate WellFormed(g: NodeDict) {
    RefersToKnown(g) && !Cyclic(g)
  }

  datatype Color = White | Gray | Black

  /**
   * Between calls, `stack` is the chain of searches under way. Gray stages are on it or were left gray
   * by an abandoned search; `finished` lists the black ones in the order they turned black.
   */
  ghost predicate SearchState(g: NodeDict, colors: map<string, Color>, finished: seq<string>, stack: seq<string>) {
    && colors.Keys == g.at.Keys
    && (stack != [] ==> IsPath(g, stack))
    && (forall n :: n in stack ==> n in colors && colors[n] == Gray)
    && (forall n :: n in colors && colors[n] == Gray ==> n in stack || Doomed(g, n))
    && Distinct(finished)
    && (forall n :: n in finished <==> n in colors && colors[n] == Black)
    && DepsFirst(g, finished, g.at.Keys)
  }

  lemma EnterStage(g: NodeDict, colors: map<string, Color>, finished: seq<string>, stack: seq<string>, name: string)
    requires SearchState(g, colors, finished, stack)
    requires name in colors && colors[name] == White
    requires stack != [] ==> DependsOn(g, Last(stack), name)
    ensures name !in stack
    ensures SearchState(g, colors[name := Gray], finished, stack + [name])
  {
  }

  lemma FinishStage(g: NodeDict, colors: map<string, Color>, finished: seq<string>, stack: seq<string>, name: string)
    requires SearchState(g, colors, finished, stack + [name]) && name !in stack
    requires name in g.at && AllBlack(colors, g.at[name].Deps())
    ensures SearchState(g, colors[name := Black], finished + [name], stack)
  {
    assert name in stack + [name];
    assert forall n :: n in stack ==> n in stack + [name];
    var s := stack + [name];
    assert forall i :: 0 <= i < |stack| ==> s[i] == stack[i];
    var f := finished + [name];
    forall i, d | 0 <= i < |f| && DependsOn(g, f[i], d) && d in g.at.Keys
      ensures d in f[..i]
    {
      if i < |finished| {
        assert f[..i] == finished[..i];
      } else {
        assert f[..i] == finished;
      }
    }
  }

  lemma AbandonStage(g: NodeDict, colors: map<string, Color>, finished: seq<string>, stack: seq<string>, name: string)
    requires SearchState(g, colors, finished, stack + [name]) && Doomed(g, name)
    ensures SearchState(g, colors, finished, stack)
  {
    assert forall n :: n in stack ==> n in stack + [name];
    var s := stack + [name];
    assert forall i :: 0 <= i < |stack| ==> s[i] == stack[i];
  }

  /** Meeting a gray stage: it is on the current chain, or an earlier search already found a cycle behind it. */
  lemma GrayIsDoomed(g: NodeDict, colors: map<string, Color>, finished: seq<string>, stack: seq<string>, d: string)
    requires stack != [] && SearchState(g, colors, finished, stack)
    requires DependsOn(g, Last(stack), d) && d in colors && colors[d] == Gray
    ensures Doomed(g, d) && Doomed(g, Last(stack))
  {
    if d in stack { BackEdgeClosesCycle(g, stack, d); }
    DoomSpreads(g, Last(stack), d);
  }

  lemma AllBlackIsAcyclic(g: NodeDict, colors: map<string, Color>, finished: seq<string>, names: seq<string>)
    requires SearchState(g, colors, finished, [])
    requires forall n :: n in names <==> n in g.at
    requires NoGray(colors) && Coloured(colors, names)
    ensures !Cyclic(g)
  {
    DepsFirstIsAcyclic(g, finished, g.at.Keys);
  }

  /** Colours only move on: black is final and nothing turns white again. */
  ghost predicate Advances(before: map<string, Color>, now: map<string, Color>) {
    && now.Keys == before.Keys
    && (forall n :: n in now && before[n] == Black ==> now[n] == Black)
    && (forall n :: n in now && now[n] == White ==> before[n] == White)
  }

  ghost predicate NoNewGray(before: map<string, Color>, now: map<string, Color>) {
    now.Keys == before.Keys && forall n :: n in now && now[n] == Gray ==> before[n] == Gray
  }

  ghost function Whites(colors: map<string, Color>): set<string> {
    set n | n in colors && colors[n] == White
  }

  lemma GrayAdvances(before: map<string, Color>, name: string)
    requires name in before && before[name] == White
    ensures Advances(before, before[name := Gray])
    ensures Advances(before[name := Gray], before[name := Gray]) && NoNewGray(before[name := Gray], before[name := Gray])
  {
  }

  lemma AdvancesFurther(a: map<string, Color>, b: map<string, Color>, c: map<string, Color>)
    requires Advances(a, b) && Advances(b, c)
    ensures Advances(a, c)
    ensures NoNewGray(a, b) && NoNewGray(b, c) ==> NoNewGray(a, c)
  {
  }

  lemma FewerWhites(before: map<string, Color>, entered: map<string, Color>, now: map<string, Color>, name: string)
    requires name in before && before[name] == White && entered == before[name := Gray] && Advances(entered, now)
    ensures Whites(now) < Whites(before)
  {
    assert name in Whites(before) && name !in Whites(now);
    assert Whites(now) <= Whites(before);
  }

  lemma NoMoreWhites(before: map<string, Color>, now: map<string, Color>)
    requires Advances(before, now)
    ensures Whites(now) <= Whites(before)
  {
  }

  lemma BlackAdvances(before: map<string, Color>, entered: map<string, Color>, now: map<string, Color>, name: string)
    requires name in before && before[name] == White && entered == before[name := Gray]
    requires Advances(entered, now) && NoNewGray(entered, now)
    ensures Advances(before, now[name := Black]) && NoNewGray(before, now[name := Black])
  {
  }

  predicate AllBlack(colors: map<string, Color>, names: seq<string>) {
    forall n :: n in names && n in colors ==> colors[n] == Black
  }

  lemma NothingIsBlack(colors: map<string, Color>)
    ensures AllBlack(colors, [])
  {
  }

  lemma BlackStaysBlack(before: map<string, Color>, now: map<string, Color>, names: seq<string>, n: string)
    requires Advances(before, now) && AllBlack(before, names)
    requires n in now ==> now[n] == Black
    ensures AllBlack(now, names + [n])
  {
  }

  lemma StaysGray(g: NodeDict, colors: map<string, Color>, finished: seq<string>, stack: seq<string>, name: string)
    requires SearchState(g, colors, finished, stack) && stack != [] && Last(stack) == name
    ensures name in colors && colors[name] == Gray && colors.Keys == g.at.Keys
  {
    assert name in stack;
  }

  /** Exactly one message was added, and it names a stage that leads into a cycle. */
  ghost predicate OneMore(g: NodeDict, before: seq<GraphError>, now: seq<GraphError>) {
    exists d :: now == before + [CycleInvolving(d)] && Doomed(g, d)
  }

  /** The state that the three-colour search of `validate` shares between its recursive calls. */
  class CycleSearch {
    const graph: NodeDict
    var colors: map<string, Color>
    var errors: seq<GraphError>
    ghost var finished: seq<string>

    ghost predicate Valid(stack: seq<string>)
      reads this
    {
      SearchState(graph, colors, finished, stack)
    }

    /** The search comes after the pass over references, which raises on a null list. */
    constructor (g: NodeDict, errors: seq<GraphError>)
      requires !HasNullList(g)
      ensures graph == g && this.errors == errors
      ensures Valid([]) && forall n :: n in colors ==> colors[n] == White
    {
      graph := g;
      colors := map n | n in g.at :: White;
      this.errors := errors;
      finished := [];
    }

    method HasCycle(name: string, ghost stack: seq<string>) returns (found: bool)
      requires Valid(stack) && name in colors && colors[name] == White
      requires stack != [] ==> DependsOn(graph, Last(stack), name)
      modifies this
      ensures Valid(stack) && Advances(old(colors), colors)
      ensures name in colors && colors[name] != White
      ensures !found ==> colors[name] == Black && errors == old(errors) && NoNewGray(old(colors), colors)
      ensures found ==> Doomed(graph, name)
      ensures found ==> OneMore(graph, old(errors), errors)
      decreases Whites(colors), 0
    {
      ghost var before := colors;
      assert before.Keys == graph.at.Keys;
      EnterStage(graph, colors, finished, stack, name);
      GrayAdvances(before, name);
      NothingIsBlack(before[name := Gray]);
      hide SearchState, IsPath, Doomed, Reaches, DepsFirst, Cyclic, Advances, NoNewGray, Whites, OneMore, AllBlack;
      colors := colors[name := Gray];
      ghost var entered := colors;
      FewerWhites(before, entered, colors, name);
      found := ExploreAll(graph.at[name].Deps(), stack + [name]);
      AdvancesFurther(before, entered, colors);
      StaysGray(graph, colors, finished, stack + [name], name);
      if found {
        AbandonStage(graph, colors, finished, stack, name);
        return;
      }
      FinishStage(graph, colors, finished, stack, name);
      BlackAdvances(before, entered, colors, name);
      colors := colors[name := Black];
      finished := finished + [name];
    }

    /** The loop over the dependencies of the stage on top of the chain; it stops at the first cycle. */
    method ExploreAll(deps: seq<string>, ghost stack: seq<string>) returns (found: bool)
      requires stack != [] && Valid(stack) && Advances(colors, colors) && NoNewGray(colors, colors)
      requires forall d :: d in deps ==> DependsOn(graph, Last(stack), d)
      modifies this
      ensures Valid(stack) && Advances(old(colors), colors)
      ensures !found ==> errors == old(errors) && NoNewGray(old(colors), colors) && AllBlack(colors, deps)
      ensures found ==> Doomed(graph, Last(stack)) && OneMore(graph, old(errors), errors)
      decreases Whites(colors), 2
    {
      hide *;
      ghost var entered := colors;
      NothingIsBlack(colors);
      var i := 0;
      assert deps[..i] == [];
      found := false;
      while i < |deps|
        invariant 0 <= i <= |deps| && !found
        invariant Valid(stack) && errors == old(errors)
        invariant Advances(entered, colors) && NoNewGray(entered, colors)
        invariant AllBlack(colors, deps[..i])
        decreases |deps| - i
      {
        ghost var here := colors;
        NoMoreWhites(entered, here);
        found := Explore(deps[i], stack);
        AdvancesFurther(entered, here, colors);
        if found {
          return;
        }
        BlackStaysBlack(here, colors, deps[..i], deps[i]);
        assert deps[..i + 1] == deps[..i] + [deps[i]];
        i := i + 1;
      }
      assert deps[..i] == deps;
    }

    /** One turn of the loop over the dependencies of the stage on top of the chain. */
    method Explore(dep: string, ghost stack: seq<string>) returns (found: bool)
      requires stack != [] && Valid(stack) && DependsOn(graph, Last(stack), dep)
      modifies this
      ensures Valid(stack) && Advances(old(colors), colors)
      ensures !found ==> errors == old(errors) && NoNewGray(old(colors), colors)
      ensures !found && dep in colors ==> colors[dep] == Black
      ensures found ==> Doomed(graph, Last(stack))
      ensures found ==> OneMore(graph, old(errors), errors)
      decreases Whites(colors), 1
    {
      hide SearchState, IsPath, Doomed, Reaches, DepsFirst, Cyclic, Whites;
      if dep !in colors {
        return false;
      }
      if colors[dep] == Gray {
        GrayIsDoomed(graph, colors, finished, stack, dep);
        errors := errors + [CycleInvolving(dep)];
        return true;
      }
      found := false;
      if colors[dep] == White {
        found := HasCycle(dep, stack);
        if found {
          DoomSpreads(graph, Last(stack), dep);
        }
      }
    }

    /** The loop over all stages: search from each one that no earlier search has coloured. */
    method SearchAll(names: seq<string>) returns (ghost cycles: seq<GraphError>)
      requires Valid([]) && forall n :: n in names <==> n in graph.at
      requires forall n :: n in colors ==> colors[n] == White
      modifies this
      ensures errors == old(errors) + cycles
      ensures cycles == [] <==> !Cyclic(graph)
      ensures CycleReports(graph, cycles)
    {
      SameKeys(graph, colors, finished, []);
      hide SearchState, Doomed, Reaches, IsPath, DepsFirst, Cyclic, CycleReports, Advances;
      cycles := [];
      NoReports(graph);
      var i := 0;
      while i < |names|
        invariant 0 <= i <= |names|
        invariant SearchState(graph, colors, finished, []) && colors.Keys == graph.at.Keys
        invariant errors == old(errors) + cycles && CycleReports(graph, cycles)
        invariant Coloured(colors, names[..i])
        invariant cycles == [] ==> NoGray(colors)
      {
        assert names[i] in graph.at;
        ghost var before := colors;
        if colors[names[i]] == White {
          var found := HasCycle(names[i], []);
          SameKeys(graph, colors, finished, []);
          if found {
            ghost var d :| errors == old(errors) + cycles + [CycleInvolving(d)] && Doomed(graph, d);
            OneMoreReport(graph, cycles, d);
            cycles := cycles + [CycleInvolving(d)];
          }
        }
        StaysColoured(before, colors, names[..i], names[i]);
        assert names[..i + 1] == names[..i] + [names[i]];
        i := i + 1;
      }
      assert names[..i] == names;
      if cycles == [] {
        AllBlackIsAcyclic(graph, colors, finished, names);
      } else {
        ReportMeansCycle(graph, cycles);
      }
    }
  }

  predicate Coloured(colors: map<string, Color>, names: seq<string>) {
    forall n :: n in names && n in colors ==> colors[n] != White
  }

  predicate NoGray(colors: map<string, Color>) {
    forall n :: n in colors ==> colors[n] != Gray
  }

  /** Cycle messages, each naming a stage that is on a cycle or depends on one. */
  ghost predicate CycleReports(g: NodeDict, reports: seq<GraphError>) {
    forall e :: e in reports ==> e.CycleInvolving? && Doomed(g, e.stage)
  }

  lemma SameKeys(g: NodeDict, colors: map<string, Color>, finished: seq<string>, stack: seq<string>)
    requires SearchState(g, colors, finished, stack)
    ensures colors.Keys == g.at.Keys
  {
  }

  lemma StaysColoured(before: map<string, Color>, now: map<string, Color>, names: seq<string>, n: string)
    requires Coloured(before, names) && (before == now || Advances(before, now))
    requires n in now ==> now[n] != White
    ensures Coloured(now, names + [n])
  {
  }

  lemma NoReports(g: NodeDict)
    ensures CycleReports(g, [])
  {
  }

  lemma OneMoreReport(g: NodeDict, reports: seq<GraphError>, d: string)
    requires CycleReports(g, reports) && Doomed(g, d)
    ensures CycleReports(g, reports + [CycleInvolving(d)])
  {
  }

  lemma ReportMeansCycle(g: NodeDict, reports: seq<GraphError>)
    requires CycleReports(g, reports) && reports != []
    ensures Cyclic(g)
  {
    assert reports[0] in reports;
  }

  /** The messages about unknown stages: dependencies of each node, then its redirect, node by node. */
  function ReferenceErrors(g: NodeDict, k: nat): seq<GraphError>
    requires k <= |g.keys| && forall i :: 0 <= i < |g.keys| ==> g.keys[i] in g.at
  {
    if k == 0 then [] else
      var node := g.at[g.keys[k - 1]];
      ReferenceErrors(g, k - 1) + DependencyErrors(g, g.keys[k - 1], node.Deps()) + RedirectErrors(g, g.keys[k - 1])
  }

  function DependencyErrors(g: NodeDict, stage: string, deps: seq<string>): seq<GraphError> {
    if deps == [] then [] else
      var d := Last(deps);
      DependencyErrors(g, stage, deps[..|deps| - 1]) + if d in g.at then [] else [UnknownDependency(stage, d)]
  }

  function RedirectErrors(g: NodeDict, stage: string): seq<GraphError>
    requires stage in g.at
  {
    var r := Redirect(g.at[stage]);
    if r.Some? && r.value !in g.at then [UnknownRedirect(stage, r.value)] else []
  }

  /** The first k stages have lists. */
  ghost predicate GivenUpTo(g: NodeDict, k: nat)
    requires k <= |g.keys| && forall i :: 0 <= i < |g.keys| ==> g.keys[i] in g.at
  {
    forall i :: 0 <= i < k ==> g.at[g.keys[i]].dependsOn.Some?
  }

  lemma KeysAreStages(g: NodeDict)
    requires g.Valid()
    ensures forall i :: 0 <= i < |g.keys| ==> g.keys[i] in g.at
    ensures GivenUpTo(g, 0)
  {
  }

  lemma GivenStep(g: NodeDict, i: nat)
    requires i < |g.keys| && forall j :: 0 <= j < |g.keys| ==> g.keys[j] in g.at
    requires GivenUpTo(g, i)
    ensures if g.at[g.keys[i]].dependsOn.Some? then GivenUpTo(g, i + 1) else HasNullList(g)
  {
  }

  lemma AllGiven(g: NodeDict)
    requires g.Valid() && (forall j :: 0 <= j < |g.keys| ==> g.keys[j] in g.at) && GivenUpTo(g, |g.keys|)
    ensures !HasNullList(g)
  {
    assert forall n :: n in g.at ==> n in g.keys;
  }

  lemma NoDependencyErrors(g: NodeDict, stage: string)
    ensures DependencyErrors(g, stage, []) == []
  {
  }

  lemma DependencyErrorsStep(g: NodeDict, stage: string, deps: seq<string>, j: nat)
    requires j < |deps|
    ensures DependencyErrors(g, stage, deps[..j + 1]) ==
              DependencyErrors(g, stage, deps[..j]) + if deps[j] in g.at then [] else [UnknownDependency(stage, deps[j])]
  {
    assert deps[..j + 1][..j] == deps[..j];
  }

  lemma ReferenceErrorsStep(g: NodeDict, i: nat, errors: seq<GraphError>)
    requires i < |g.keys| && forall j :: 0 <= j < |g.keys| ==> g.keys[j] in g.at
    requires errors == ReferenceErrors(g, i) + DependencyErrors(g, g.keys[i], g.at[g.keys[i]].Deps()) + RedirectErrors(g, g.keys[i])
    ensures errors == ReferenceErrors(g, i + 1)
  {
  }

  lemma {:induction false} DependencyErrorsExact(g: NodeDict, stage: string, deps: seq<string>)
    ensures DependencyErrors(g, stage, deps) == [] <==> forall d :: d in deps ==> d in g.at
  {
    if deps != [] {
      DependencyErrorsExact(g, stage, deps[..|deps| - 1]);
      assert deps == deps[..|deps| - 1] + [Last(deps)];
    }
  }

  predicate NodeRefersToKnown(g: NodeDict, n: string)
    requires n in g.at
  {
    && (forall d :: d in g.at[n].Deps() ==> d in g.at)
    && (Redirect(g.at[n]).Some? ==> Redirect(g.at[n]).value in g.at)
  }

  /** The first k stages refer only to known stages. */
  ghost predicate KnownUpTo(g: NodeDict, k: nat)
    requires k <= |g.keys| && forall i :: 0 <= i < |g.keys| ==> g.keys[i] in g.at
  {
    forall i :: 0 <= i < k ==> NodeRefersToKnown(g, g.keys[i])
  }

  lemma NothingYet(g: NodeDict)
    requires forall i :: 0 <= i < |g.keys| ==> g.keys[i] in g.at
    ensures KnownUpTo(g, 0) && ReferenceErrors(g, 0) == []
  {
    hide NodeRefersToKnown;
  }

  lemma KnownStep(g: NodeDict, k: nat)
    requires 0 < k <= |g.keys| && forall i :: 0 <= i < |g.keys| ==> g.keys[i] in g.at
    ensures KnownUpTo(g, k) <==> KnownUpTo(g, k - 1) && NodeRefersToKnown(g, g.keys[k - 1])
  {
    hide NodeRefersToKnown;
  }

  lemma {:induction false} ReferenceErrorsExact(g: NodeDict, k: nat)
    requires k <= |g.keys| && forall i :: 0 <= i < |g.keys| ==> g.keys[i] in g.at
    ensures ReferenceErrors(g, k) == [] <==> KnownUpTo(g, k)
  {
    hide *;
    NothingYet(g);
    if k > 0 {
      ReferenceErrorsExact(g, k - 1);
      ExactStep(g, k);
    }
  }

  lemma ExactStep(g: NodeDict, k: nat)
    requires 0 < k <= |g.keys| && forall i :: 0 <= i < |g.keys| ==> g.keys[i] in g.at
    requires ReferenceErrors(g, k - 1) == [] <==> KnownUpTo(g, k - 1)
    ensures ReferenceErrors(g, k) == [] <==> KnownUpTo(g, k)
  {
    NodeErrorsExact(g, g.keys[k - 1]);
    ErrorsStep(g, k);
    KnownStep(g, k);
    hide *;
  }

  lemma ErrorsStep(g: NodeDict, k: nat)
    requires 0 < k <= |g.keys| && forall i :: 0 <= i < |g.keys| ==> g.keys[i] in g.at
    ensures ReferenceErrors(g, k) == [] <==>
              && ReferenceErrors(g, k - 1) == []
              && DependencyErrors(g, g.keys[k - 1], g.at[g.keys[k - 1]].Deps()) == []
              && RedirectErrors(g, g.keys[k - 1]) == []
  {
    hide DependencyErrors, RedirectErrors;
  }

  lemma NodeErrorsExact(g: NodeDict, n: string)
    requires n in g.at
    ensures DependencyErrors(g, n, g.at[n].Deps()) == [] && RedirectErrors(g, n) == [] <==> NodeRefersToKnown(g, n)
  {
    DependencyErrorsExact(g, n, g.at[n].Deps());
  }

  // ---------------------------------------------------------------- topological listing

  /** Every name the listing can meet: the stages and everything they depend on. */
  ghost function Mentioned(g: NodeDict): set<string> {
    g.at.Keys + set n, d | n in g.at && d in g.at[n].Deps() :: d
  }

  /** Between calls, `stack` is the chain of visits under way; what was visited is listed or on the chain. */
  ghost predicate ListingState(g: NodeDict, visited: set<string>, result: seq<string>, stack: seq<string>) {
    && visited <= Mentioned(g)
    && (stack != [] ==> IsPath(g, stack))
    && Distinct(result)
    && (forall n :: n in visited <==> n in result || n in stack)
    && (forall n :: n in stack ==> n !in result)
    && (forall n, d :: n in result && DependsOn(g, n, d) ==> d in visited)
    && (!Cyclic(g) ==> DepsFirst(g, result, Mentioned(g)))
  }

  lemma EnterVisit(g: NodeDict, visited: set<string>, result: seq<string>, stack: seq<string>, name: string)
    requires ListingState(g, visited, result, stack) && name in Mentioned(g) && name !in visited
    requires stack != [] ==> DependsOn(g, Last(stack), name)
    ensures ListingState(g, visited + {name}, result, stack + [name]) && name !in stack
  {
  }

  /** A dependency met again is listed already: it can be on the chain only if there is a cycle. */
  lemma LeaveVisit(g: NodeDict, visited: set<string>, result: seq<string>, stack: seq<string>, name: string)
    requires ListingState(g, visited, result, stack + [name]) && name !in stack
    requires forall d :: DependsOn(g, name, d) ==> d in visited
    ensures ListingState(g, visited, result + [name], stack)
  {
    var longer, listed := stack + [name], result + [name];
    assert forall i :: 0 <= i < |stack| ==> longer[i] == stack[i];
    assert name in longer;
    assert forall n :: n in stack ==> n in longer;
    if !Cyclic(g) {
      forall i, d | 0 <= i < |listed| && DependsOn(g, listed[i], d) && d in Mentioned(g) ensures d in listed[..i] {
        if i < |result| {
          assert listed[..i] == result[..i];
        } else {
          assert listed[..i] == result;
          if d in longer { BackEdgeClosesCycle(g, longer, d); }
        }
      }
    }
  }

  /** The state that the depth-first `visit` of `get_all_stage_names` shares between its calls. */
  class Listing {
    const graph: NodeDict
    var visited: set<string>
    var result: seq<string>

    ghost predicate Valid(stack: seq<string>)
      reads this
    {
      ListingState(graph, visited, result, stack)
    }

    constructor (g: NodeDict)
      ensures graph == g && visited == {} && result == [] && Valid([])
    {
      graph := g;
      visited := {};
      result := [];
    }

    /** `ok` is false when the visit raises on a null list; the listing is abandoned then. */
    method Visit(name: string, ghost stack: seq<string>) returns (ok: bool)
      requires Valid(stack) && name in Mentioned(graph) && ListsGiven(graph, visited)
      requires stack != [] ==> DependsOn(graph, Last(stack), name)
      modifies this
      ensures !ok ==> HasNullList(graph)
      ensures ok ==> Valid(stack) && name in visited && ListsGiven(graph, visited)
      ensures old(visited) <= visited
      decreases Mentioned(graph) - visited
    {
      if name in visited {
        return true;
      }
      assert name in Mentioned(graph) - visited;
      EnterVisit(graph, visited, result, stack, name);
      hide ListingState, IsPath, Cyclic, DepsFirst;
      visited := visited + {name};
      if name in graph.at {
        if graph.at[name].dependsOn.None? {
          return false;
        }
        var deps := graph.at[name].dependsOn.value;
        var i := 0;
        while i < |deps|
          invariant 0 <= i <= |deps|
          invariant ListingState(graph, visited, result, stack + [name]) && old(visited) + {name} <= visited
          invariant ListsGiven(graph, visited)
          invariant forall j :: 0 <= j < i ==> deps[j] in visited
          decreases |deps| - i
        {
          assert DependsOn(graph, name, deps[i]);
          ok := Visit(deps[i], stack + [name]);
          if !ok {
            return false;
          }
          i := i + 1;
        }
      }
      LeaveVisit(graph, visited, result, stack, name);
      result := result + [name];
      return true;
    }
  }

  ghost predicate ListsGiven(g: NodeDict, names: set<string>) {
    forall n :: n in names && n in g.at ==> g.at[n].dependsOn.Some?
  }

  // ---------------------------------------------------------------- the graph object

  /** A stage whose dependencies the ready-set computation looks at. */
  predicate IsCandidate(g: NodeDict, n: string, completed: set<string>, running: set<string>, failed: set<string>,
                        skipped: set<string>, counts: map<string, int>)
  {
    && n in g.at
    && n !in completed && n !in running && n !in skipped
    && (n in failed ==> (if n in counts then counts[n] else 0) < g.at[n].maxExecutions)
  }

  /** What the ready-set computation asks of one stage. */
  predicate IsReady(g: NodeDict, n: string, completed: set<string>, running: set<string>, failed: set<string>,
                    skipped: set<string>, counts: map<string, int>)
  {
    && IsCandidate(g, n, completed, running, failed, skipped, counts)
    && forall d :: d in g.at[n].Deps() ==> d in completed || d in skipped
  }

  /** The ready stages in insertion order. */
  function ReadyAmong(g: NodeDict, names: seq<string>, completed: set<string>, running: set<string>,
                      failed: set<string>, skipped: set<string>, counts: map<string, int>): (r: seq<string>)
    ensures forall n :: n in r <==> n in names && IsReady(g, n, completed, running, failed, skipped, counts)
    ensures Distinct(names) ==> Distinct(r)
  {
    if names == [] then [] else
      var n := Last(names);
      var init := names[..|names| - 1];
      assert names == init + [n];
      ReadyAmong(g, init, completed, running, failed, skipped, counts) +
      if IsReady(g, n, completed, running, failed, skipped, counts) then [n] else []
  }

  lemma NoneReady(g: NodeDict, completed: set<string>, running: set<string>, failed: set<string>, skipped: set<string>,
                  counts: map<string, int>)
    ensures ReadyAmong(g, [], completed, running, failed, skipped, counts) == []
  {
  }

  lemma ReadyAppend(g: NodeDict, names: seq<string>, n: string, completed: set<string>, running: set<string>,
                    failed: set<string>, skipped: set<string>, counts: map<string, int>)
    ensures ReadyAmong(g, names + [n], completed, running, failed, skipped, counts)
            == ReadyAmong(g, names, completed, running, failed, skipped, counts)
               + if IsReady(g, n, completed, running, failed, skipped, counts) then [n] else []
  {
    assert (names + [n])[..|names|] == names;
  }

  class Graph {
    var nodes: NodeDict

    constructor (nodes: NodeDict)
      ensures this.nodes == nodes
    {
      this.nodes := nodes;
    }

    /** None is the exception that a candidate with a null list raises. */
    method GetReadyStages(completed: set<string>, running: set<string>, failed: set<string>, skipped: set<string>,
                          counts: map<string, int>) returns (r: Option<seq<string>>)
      requires nodes.Valid()
      ensures r.None? <==> exists n :: IsCandidate(nodes, n, completed, running, failed, skipped, counts)
                                       && nodes.at[n].dependsOn.None?
      ensures r.Some? ==> r.value == ReadyAmong(nodes, nodes.keys, completed, running, failed, skipped, counts)
      ensures r.Some? ==> forall n :: n in r.value <==>
                && n in nodes.at && n !in completed && n !in running && n !in skipped
                && (n in failed ==> (if n in counts then counts[n] else 0) < nodes.at[n].maxExecutions)
                && (nodes.at[n].dependsOn.Some? ==> forall d :: d in nodes.at[n].dependsOn.value ==> d in completed || d in skipped)
    {
      hide ReadyAmong;
      var done := completed + skipped;
      var ready := [];
      assert nodes.keys[..0] == [];
      NoneReady(nodes, completed, running, failed, skipped, counts);
      var i := 0;
      while i < |nodes.keys|
        invariant 0 <= i <= |nodes.keys|
        invariant ready == ReadyAmong(nodes, nodes.keys[..i], completed, running, failed, skipped, counts)
        invariant forall j :: 0 <= j < i && IsCandidate(nodes, nodes.keys[j], completed, running, failed, skipped, counts) ==>
                    nodes.at[nodes.keys[j]].dependsOn.Some?
      {
        var name := nodes.keys[i];
        var node := nodes.at[name];
        assert name in nodes.keys && nodes.keys[..i + 1] == nodes.keys[..i] + [name];
        ReadyAppend(nodes, nodes.keys[..i], name, completed, running, failed, skipped, counts);
        i := i + 1;
        if name in completed || name in running || name in skipped {
          continue;
        }
        if name in failed {
          var executions := if name in counts then counts[name] else 0;
          if executions >= node.maxExecutions {
            continue;
          }
        }
        if node.dependsOn.None? {
          assert IsCandidate(nodes, name, completed, running, failed, skipped, counts);
          return None;
        }
        if forall d :: d in node.dependsOn.value ==> d in done {
          ready := ready + [name];
        }
      }
      assert nodes.keys[..i] == nodes.keys;
      assert forall n :: n in nodes.at ==> n in nodes.keys;
      return Some(ready);
    }

    method GetFailureRedirect(failedStage: string) returns (target: Option<string>)
      ensures target.Some? <==> failedStage in nodes.at && nodes.at[failedStage].onFailure.Some?
                                && nodes.at[failedStage].onFailure.value != ""
      ensures target.Some? ==> target == nodes.at[failedStage].onFailure
    {
      if failedStage in nodes.at {
        return Redirect(nodes.at[failedStage]);
      }
      return None;
    }

    /**
     * None, the exception, exactly when some list is null. Otherwise the listing is complete and free of repeats,
     * and topological exactly when no cycle exists.
     */
    method GetAllStageNames() returns (r: Option<seq<string>>)
      requires nodes.Valid()
      ensures r.None? <==> HasNullList(nodes)
      ensures r.Some? ==> Distinct(r.value) && forall n :: n in r.value <==> n in Mentioned(nodes)
      ensures r.Some? ==> (DepsFirst(nodes, r.value, Mentioned(nodes)) <==> !Cyclic(nodes))
    {
      var listing := new Listing(nodes);
      var i := 0;
      while i < |nodes.keys|
        invariant 0 <= i <= |nodes.keys|
        invariant listing.graph == nodes && listing.Valid([]) && ListsGiven(nodes, listing.visited)
        invariant forall j :: 0 <= j < i ==> nodes.keys[j] in listing.visited
      {
        var ok := listing.Visit(nodes.keys[i], []);
        if !ok {
          return None;
        }
        i := i + 1;
      }
      assert forall n :: n in nodes.at ==> n in nodes.keys && n in listing.visited;
      var names := listing.result;
      if DepsFirst(nodes, names, Mentioned(nodes)) {
        DepsFirstIsAcyclic(nodes, names, Mentioned(nodes));
      }
      return Some(names);
    }

    /**
     * It raises (None) exactly on a graph with a null list. Otherwise no message is reported exactly when all
     * references are known and no dependency cycle exists.
     */
    method Validate() returns (r: Option<seq<GraphError>>)
      requires nodes.Valid()
      ensures r.None? <==> HasNullList(nodes)
      ensures r.Some? ==> (r.value == [] <==> WellFormed(nodes))
      ensures r.Some? ==> ReferenceErrors(nodes, |nodes.keys|) <= r.value
      ensures r.Some? ==> (r.value == ReferenceErrors(nodes, |nodes.keys|) <==> !Cyclic(nodes))
      ensures r.Some? ==> CycleReports(nodes, r.value[|ReferenceErrors(nodes, |nodes.keys|)|..])
    {
      r := FindUnknownReferences();
      if r.None? {
        return;
      }
      var errors := r.value;
      var search := new CycleSearch(nodes, errors);
      ghost var cycles := search.SearchAll(nodes.keys);
      errors := search.errors;
      assert errors[|ReferenceErrors(nodes, |nodes.keys|)|..] == cycles;
      ReferenceErrorsExact(nodes, |nodes.keys|);
      assert (forall n :: n in nodes.at ==> NodeRefersToKnown(nodes, n)) <==>
             (forall i :: 0 <= i < |nodes.keys| ==> NodeRefersToKnown(nodes, nodes.keys[i])) by {
        assert forall n :: n in nodes.at ==> n in nodes.keys;
      }
      r := Some(errors);
    }

    method FindUnknownReferences() returns (r: Option<seq<GraphError>>)
      requires nodes.Valid()
      ensures r.None? <==> HasNullList(nodes)
      ensures r.Some? ==> r.value == ReferenceErrors(nodes, |nodes.keys|)
    {
      KeysAreStages(nodes);
      hide Dict<StageNode>.Valid, ReferenceErrors, DependencyErrors, HasNullList, GivenUpTo;
      var errors: seq<GraphError> := [];
      NothingYet(nodes);
      var i := 0;
      while i < |nodes.keys|
        invariant 0 <= i <= |nodes.keys|
        invariant errors == ReferenceErrors(nodes, i)
        invariant GivenUpTo(nodes, i)
      {
        var name := nodes.keys[i];
        var node := nodes.at[name];
        GivenStep(nodes, i);
        if node.dependsOn.None? {
          return None;
        }
        var unknown := FindUnknownDependencies(name, node.dependsOn.value);
        errors := errors + unknown;
        if node.onFailure.Some? && node.onFailure.value != "" && node.onFailure.value !in nodes.at {
          errors := errors + [UnknownRedirect(name, node.onFailure.value)];
        }
        ReferenceErrorsStep(nodes, i, errors);
        i := i + 1;
      }
      AllGiven(nodes);
      return Some(errors);
    }

    /** The inner loop, over the dependencies of one stage. */
    method FindUnknownDependencies(name: string, deps: seq<string>) returns (errors: seq<GraphError>)
      ensures errors == DependencyErrors(nodes, name, deps)
    {
      hide DependencyErrors;
      errors := [];
      var j := 0;
      NoDependencyErrors(nodes, name);
      assert deps[..j] == [];
      while j < |deps|
        invariant 0 <= j <= |deps|
        invariant errors == DependencyErrors(nodes, name, deps[..j])
      {
        DependencyErrorsStep(nodes, name, deps, j);
        if deps[j] !in nodes.at {
          errors := errors + [UnknownDependency(name, deps[j])];
        }
        j := j + 1;
      }
      assert deps[..j] == deps;
    }
  }
}
