/**
 * Template stages become a graph, or an ordered list of parallel groups. When no stage names a
 * dependency the graph is inferred from `order` and is meant to run the stages exactly as the groups do.
 */
module LinearMode {
  import opened Prelude
  import opened StageGraph

  /** One stage of a template; an absent `depends_on` is the empty list, a null one is None. */
  datatype StageDef = StageDef(
    name: string,
    dependsOn: Option<seq<string>>,
    onFailure: Option<string>,
    maxExecutions: Option<int>,
    order: Option<int>)

  function GraphOrder(sd: StageDef): int {
    if sd.order.Some? then sd.order.value else 0
  }

  function NodeOf(sd: StageDef, deps: Option<seq<string>>, order: int): StageNode {
    StageNode(sd.name, deps, sd.onFailure, if sd.maxExecutions.Some? then sd.maxExecutions.value else 1, order)
  }

  function Names(defs: seq<StageDef>): (r: seq<string>)
    ensures |r| == |defs| && forall i :: 0 <= i < |r| ==> r[i] == defs[i].name
  {
    seq(|defs|, i requires 0 <= i < |defs| => defs[i].name)
  }

  function WithOrder(defs: seq<StageDef>, o: int): (r: seq<StageDef>)
    ensures forall sd :: sd in r <==> sd in defs && GraphOrder(sd) == o
  {
    if defs == [] then [] else
      var sd := Last(defs);
      assert defs == defs[..|defs| - 1] + [sd];
      WithOrder(defs[..|defs| - 1], o) + if GraphOrder(sd) == o then [sd] else []
  }

  // ---------------------------------------------------------------- Python's stable sort

  function InsertByOrder(sorted: seq<StageDef>, sd: StageDef): seq<StageDef> {
    if sorted == [] || GraphOrder(Last(sorted)) <= GraphOrder(sd) then sorted + [sd] else
      InsertByOrder(sorted[..|sorted| - 1], sd) + [Last(sorted)]
  }

  function SortByOrder(defs: seq<StageDef>): seq<StageDef> {
    if defs == [] then [] else InsertByOrder(SortByOrder(defs[..|defs| - 1]), Last(defs))
  }

  lemma WithOrderAppend(defs: seq<StageDef>, sd: StageDef, o: int)
    ensures WithOrder(defs + [sd], o) == WithOrder(defs, o) + if GraphOrder(sd) == o then [sd] else []
  {
    assert (defs + [sd])[..|defs|] == defs;
  }

  lemma {:induction false} InsertKeepsGroups(sorted: seq<StageDef>, sd: StageDef, o: int)
    ensures WithOrder(InsertByOrder(sorted, sd), o) == WithOrder(sorted, o) + if GraphOrder(sd) == o then [sd] else []
  {
    hide WithOrder;
    if sorted == [] || GraphOrder(Last(sorted)) <= GraphOrder(sd) {
      WithOrderAppend(sorted, sd, o);
    } else {
      var init, last := sorted[..|sorted| - 1], Last(sorted);
      assert sorted == init + [last];
      InsertKeepsGroups(init, sd, o);
      WithOrderAppend(InsertByOrder(init, sd), last, o);
      WithOrderAppend(init, last, o);
      // `last` has the larger order, so at most one of the two belongs to group o
      assert GraphOrder(sd) != GraphOrder(last);
    }
  }

  lemma {:induction false} SortKeepsGroups(defs: seq<StageDef>, o: int)
    ensures WithOrder(SortByOrder(defs), o) == WithOrder(defs, o)
  {
    if defs != [] {
      var init := defs[..|defs| - 1];
      assert defs == init + [Last(defs)];
      SortKeepsGroups(init, o);
      InsertKeepsGroups(SortByOrder(init), Last(defs), o);
      WithOrderAppend(init, Last(defs), o);
      hide WithOrder;
    }
  }

  // ---------------------------------------------------------------- the graph of a template

  const EmptyDict: NodeDict := Dict([], map[])

  function PutExplicit(defs: seq<StageDef>): NodeDict {
    if defs == [] then EmptyDict else
      PutExplicit(defs[..|defs| - 1]).Put(Last(defs).name, NodeOf(Last(defs), Last(defs).dependsOn, GraphOrder(Last(defs))))
  }

  function PutGroup(g: NodeDict, group: seq<StageDef>, deps: seq<string>, order: int): NodeDict {
    if group == [] then g else
      PutGroup(g, group[..|group| - 1], deps, order).Put(Last(group).name, NodeOf(Last(group), Some(deps), order))
  }

  function PreviousNames(defs: seq<StageDef>, ks: seq<int>, k: nat): seq<string>
    requires k <= |ks|
  {
    if k == 0 then [] else Names(WithOrder(defs, ks[k - 1]))
  }

  function PutGroups(defs: seq<StageDef>, ks: seq<int>, k: nat): NodeDict
    requires k <= |ks|
  {
    if k == 0 then EmptyDict else
      PutGroup(PutGroups(defs, ks, k - 1), WithOrder(defs, ks[k - 1]), PreviousNames(defs, ks, k - 1), ks[k - 1])
  }

  ghost function Orders(defs: seq<StageDef>): seq<int> {
    Ascending(set sd | sd in defs :: GraphOrder(sd))
  }

  predicate NamesDependencies(defs: seq<StageDef>) {
    exists sd :: sd in defs && sd.dependsOn.Some? && sd.dependsOn.value != []
  }

  ghost function GraphOf(defs: seq<StageDef>): NodeDict {
    if NamesDependencies(defs) then PutExplicit(defs) else PutGroups(defs, Orders(defs), |Orders(defs)|)
  }

  lemma NoDefsNoOrders()
    ensures Orders([]) == []
  {
    var none: seq<StageDef> := [];
    assert (set sd | sd in none :: GraphOrder(sd)) == {};
  }

  /** `parsed` is the decoded stage list; None stands for a missing or undecodable one. */
  method FromTemplateStages(parsed: Option<seq<StageDef>>) returns (graph: Graph)
    ensures fresh(graph) && graph.nodes.Valid()
    ensures graph.nodes == if parsed.Some? then GraphOf(parsed.value) else EmptyDict
  {
    graph := new Graph(EmptyDict);
    if parsed.None? || parsed.value == [] {
      NoDefsNoOrders();
      return;
    }
    var defs := parsed.value;
    if NamesDependencies(defs) {
      var i := 0;
      while i < |defs|
        invariant 0 <= i <= |defs|
        invariant graph.nodes == PutExplicit(defs[..i]) && graph.nodes.Valid()
      {
        assert defs[..i + 1][..i] == defs[..i];
        var node := NodeOf(defs[i], defs[i].dependsOn, GraphOrder(defs[i]));
        PutKeepsValid(graph.nodes, node.name, node);
        graph.nodes := graph.nodes.Put(node.name, node);
        i := i + 1;
      }
      assert defs[..i] == defs;
    } else {
      InferFromOrder(graph, defs);
    }
  }

  lemma EmptyIsValid()
    ensures EmptyDict.Valid()
  {
  }

  method InferFromOrder(graph: Graph, defs: seq<StageDef>)
    requires graph.nodes == EmptyDict
    modifies graph
    ensures graph.nodes == PutGroups(defs, Orders(defs), |Orders(defs)|) && graph.nodes.Valid()
  {
    hide Orders, WithOrder, Names, PutGroup, Dict.Valid, StrictlyIncreasing;
    EmptyIsValid();
    var orderGroups, ks := GroupDefs(defs);
    var previous: seq<string> := [];
    var k := 0;
    while k < |ks|
      invariant 0 <= k <= |ks|
      invariant graph.nodes == PutGroups(defs, ks, k) && graph.nodes.Valid()
      invariant previous == PreviousNames(defs, ks, k)
    {
      var group := orderGroups[ks[k]];
      AddGroup(graph, group, previous, ks[k]);
      previous := Names(group);
      k := k + 1;
    }
  }

  method AddGroup(graph: Graph, group: seq<StageDef>, deps: seq<string>, order: int)
    requires graph.nodes.Valid()
    modifies graph
    ensures graph.nodes == PutGroup(old(graph.nodes), group, deps, order) && graph.nodes.Valid()
  {
    var i := 0;
    while i < |group|
      invariant 0 <= i <= |group|
      invariant graph.nodes == PutGroup(old(graph.nodes), group[..i], deps, order) && graph.nodes.Valid()
    {
      assert group[..i + 1][..i] == group[..i];
      var node := NodeOf(group[i], Some(deps), order);
      PutKeepsValid(graph.nodes, node.name, node);
      graph.nodes := graph.nodes.Put(node.name, node);
      i := i + 1;
    }
    assert group[..i] == group;
  }

  /** The `order_groups` dictionary and its keys in ascending order. */
  method GroupDefs(defs: seq<StageDef>) returns (groups: map<int, seq<StageDef>>, ks: seq<int>)
    ensures ks == Orders(defs)
    ensures forall k :: 0 <= k < |ks| ==> ks[k] in groups && groups[ks[k]] == WithOrder(defs, ks[k])
  {
    groups := BucketDefs(SortByOrder(defs));
    ks := SortKeys(groups.Keys);
    GroupKeys(defs, groups, ks);
  }

  /** A `defaultdict(list)` read: a missing key is the empty list. */
  function BucketAt<T>(groups: map<int, seq<T>>, o: int): seq<T> {
    if o in groups then groups[o] else []
  }

  function BucketsAt<T>(groups: map<int, seq<T>>, ks: seq<int>): (r: seq<seq<T>>)
    ensures |r| == |ks| && forall k :: 0 <= k < |ks| ==> r[k] == BucketAt(groups, ks[k])
  {
    seq(|ks|, k requires 0 <= k < |ks| => BucketAt(groups, ks[k]))
  }

  function Bucketed<T>(groups: map<int, seq<T>>, o: int, x: T): map<int, seq<T>> {
    groups[o := BucketAt(groups, o) + [x]]
  }

  lemma BucketedAt<T>(groups: map<int, seq<T>>, o: int, x: T, k: int)
    ensures BucketAt(Bucketed(groups, o, x), k) == BucketAt(groups, k) + if k == o then [x] else []
    ensures k in Bucketed(groups, o, x) <==> k in groups || k == o
  {
  }

  ghost predicate Buckets(groups: map<int, seq<StageDef>>, defs: seq<StageDef>) {
    && (forall o :: WithOrder(defs, o) == BucketAt(groups, o))
    && (forall o :: o in groups ==> BucketAt(groups, o) != [])
  }

  method BucketDefs(sorted: seq<StageDef>) returns (groups: map<int, seq<StageDef>>)
    ensures Buckets(groups, sorted)
  {
    groups := map[];
    NoBuckets();
    hide Buckets;
    var i := 0;
    while i < |sorted|
      invariant 0 <= i <= |sorted|
      invariant Buckets(groups, sorted[..i])
    {
      assert sorted[..i + 1] == sorted[..i] + [sorted[i]];
      AddToBucket(groups, sorted[..i], sorted[i]);
      groups := Bucketed(groups, GraphOrder(sorted[i]), sorted[i]);
      i := i + 1;
    }
    assert sorted[..i] == sorted;
  }

  lemma NoBuckets()
    ensures Buckets(map[], [])
  {
  }

  lemma AddToBucket(groups: map<int, seq<StageDef>>, defs: seq<StageDef>, sd: StageDef)
    requires Buckets(groups, defs)
    ensures Buckets(Bucketed(groups, GraphOrder(sd), sd), defs + [sd])
  {
    var o := GraphOrder(sd);
    forall k
      ensures WithOrder(defs + [sd], k) == BucketAt(Bucketed(groups, o, sd), k)
      ensures k in Bucketed(groups, o, sd) ==> BucketAt(Bucketed(groups, o, sd), k) != []
    {
      WithOrderAppend(defs, sd, k);
      BucketedAt(groups, o, sd, k);
    }
  }

  lemma GroupKeys(defs: seq<StageDef>, groups: map<int, seq<StageDef>>, ks: seq<int>)
    requires Buckets(groups, SortByOrder(defs))
    requires StrictlyIncreasing(ks) && forall k :: k in ks <==> k in groups.Keys
    ensures ks == Orders(defs)
    ensures forall k :: 0 <= k < |ks| ==> ks[k] in groups && groups[ks[k]] == WithOrder(defs, ks[k])
  {
    var wanted := set sd | sd in defs :: GraphOrder(sd);
    forall o
      ensures o in groups ==> groups[o] == WithOrder(defs, o)
      ensures o in groups <==> o in wanted
    {
      SortKeepsGroups(defs, o);
      assert WithOrder(SortByOrder(defs), o) == BucketAt(groups, o);
      if o in groups { assert groups[o][0] in WithOrder(defs, o); }
      if o in wanted {
        var sd :| sd in defs && GraphOrder(sd) == o;
        assert sd in WithOrder(defs, o);
      }
    }
    IncreasingIsUnique(ks, Orders(defs));
    forall k | 0 <= k < |ks| ensures ks[k] in groups {
      assert ks[k] in ks;
    }
  }

  // ---------------------------------------------------------------- linear groups

  /** `order_map`: the explicit order, else the position; a repeated name takes its last entry. */
  function OrderMap(defs: seq<StageDef>): map<string, int> {
    if defs == [] then map[] else
      var i := |defs| - 1;
      OrderMap(defs[..i])[defs[i].name := if defs[i].order.Some? then defs[i].order.value else i]
  }

  const UnlistedOrder := 999

  function LinearOrder(orders: map<string, int>, stage: string): int {
    if stage in orders then orders[stage] else UnlistedOrder
  }

  function StagesAt(stages: seq<string>, orders: map<string, int>, k: int): (r: seq<string>)
    ensures forall s :: s in r <==> s in stages && LinearOrder(orders, s) == k
  {
    if stages == [] then [] else
      var s := Last(stages);
      assert stages == stages[..|stages| - 1] + [s];
      StagesAt(stages[..|stages| - 1], orders, k) + if LinearOrder(orders, s) == k then [s] else []
  }

  ghost function LinearKeys(stages: seq<string>, orders: map<string, int>): seq<int> {
    Ascending(set s | s in stages :: LinearOrder(orders, s))
  }

  /** `template` is the decoded stage list; None stands for no template or an undecodable one. */
  method GroupStagesByOrder(stages: seq<string>, template: Option<seq<StageDef>>) returns (groups: seq<seq<string>>)
    ensures template.None? ==> |groups| == |stages| && forall i :: 0 <= i < |stages| ==> groups[i] == [stages[i]]
    ensures template.Some? ==>
              var orders := OrderMap(template.value);
              var ks := LinearKeys(stages, orders);
              |groups| == |ks| && forall k :: 0 <= k < |ks| ==> groups[k] == StagesAt(stages, orders, ks[k])
  {
    if template.None? {
      groups := seq(|stages|, i requires 0 <= i < |stages| => [stages[i]]);
      return;
    }
    var byOrder := BucketStages(stages, OrderMap(template.value));
    var ks := SortKeys(byOrder.Keys);
    BucketKeys(stages, OrderMap(template.value), byOrder, ks);
    hide *;
    groups := BucketsAt(byOrder, ks);
  }

  lemma StagesAtAppend(stages: seq<string>, stage: string, orders: map<string, int>, k: int)
    ensures StagesAt(stages + [stage], orders, k) == StagesAt(stages, orders, k) + if LinearOrder(orders, stage) == k then [stage] else []
  {
    assert (stages + [stage])[..|stages|] == stages;
  }

  ghost predicate StageBuckets(byOrder: map<int, seq<string>>, stages: seq<string>, orders: map<string, int>) {
    && (forall o :: StagesAt(stages, orders, o) == BucketAt(byOrder, o))
    && (forall o :: o in byOrder ==> BucketAt(byOrder, o) != [])
  }

  lemma NoStageBuckets(orders: map<string, int>)
    ensures StageBuckets(map[], [], orders)
  {
  }

  lemma AddToStageBucket(byOrder: map<int, seq<string>>, stages: seq<string>, orders: map<string, int>, stage: string)
    requires StageBuckets(byOrder, stages, orders)
    ensures StageBuckets(Bucketed(byOrder, LinearOrder(orders, stage), stage), stages + [stage], orders)
  {
    var o := LinearOrder(orders, stage);
    forall k
      ensures StagesAt(stages + [stage], orders, k) == BucketAt(Bucketed(byOrder, o, stage), k)
      ensures k in Bucketed(byOrder, o, stage) ==> BucketAt(Bucketed(byOrder, o, stage), k) != []
    {
      StagesAtAppend(stages, stage, orders, k);
      BucketedAt(byOrder, o, stage, k);
    }
  }

  /** The `groups` dictionary. */
  method BucketStages(stages: seq<string>, orders: map<string, int>) returns (byOrder: map<int, seq<string>>)
    ensures StageBuckets(byOrder, stages, orders)
  {
    byOrder := map[];
    NoStageBuckets(orders);
    hide StageBuckets;
    var i := 0;
    while i < |stages|
      invariant 0 <= i <= |stages|
      invariant StageBuckets(byOrder, stages[..i], orders)
    {
      assert stages[..i + 1] == stages[..i] + [stages[i]];
      AddToStageBucket(byOrder, stages[..i], orders, stages[i]);
      byOrder := Bucketed(byOrder, LinearOrder(orders, stages[i]), stages[i]);
      i := i + 1;
    }
    assert stages[..i] == stages;
  }

  lemma BucketKeys(stages: seq<string>, orders: map<string, int>, byOrder: map<int, seq<string>>, ks: seq<int>)
    requires StageBuckets(byOrder, stages, orders)
    requires StrictlyIncreasing(ks) && forall k :: k in ks <==> k in byOrder.Keys
    ensures ks == LinearKeys(stages, orders)
    ensures forall k :: 0 <= k < |ks| ==> BucketAt(byOrder, ks[k]) == StagesAt(stages, orders, ks[k])
  {
    var wanted := set s | s in stages :: LinearOrder(orders, s);
    forall o ensures o in byOrder <==> o in wanted {
      assert StagesAt(stages, orders, o) == BucketAt(byOrder, o);
      if o in byOrder { assert byOrder[o][0] in StagesAt(stages, orders, o); }
      if o in wanted {
        var s :| s in stages && LinearOrder(orders, s) == o;
        assert s in StagesAt(stages, orders, o);
      }
    }
    IncreasingIsUnique(ks, LinearKeys(stages, orders));
  }

  // ---------------------------------------------------------------- the two modes agree

  /** A repeated name repeats its order, 0 standing for a missing one. */
  ghost predicate OneOrderPerName(defs: seq<StageDef>) {
    forall i, j :: 0 <= i < j < |defs| && defs[i].name == defs[j].name ==> GraphOrder(defs[i]) == GraphOrder(defs[j])
  }

  /** The rank each stage has for the graph: its order, 0 when it has none. */
  ghost function GraphRanks(defs: seq<StageDef>): map<string, int> {
    if defs == [] then map[] else GraphRanks(defs[..|defs| - 1])[Last(defs).name := GraphOrder(Last(defs))]
  }

  ghost function RankKeys(rank: map<string, int>): (r: seq<int>)
    ensures StrictlyIncreasing(r)
    ensures forall x :: x in r <==> x in rank.Values
  {
    Ascending(rank.Values)
  }

  /** The k-th group of the stages when they are sorted by `rank`; empty past the last group. */
  ghost function Level(rank: map<string, int>, k: nat): set<string> {
    set n | n in rank && k < |RankKeys(rank)| && rank[n] == RankKeys(rank)[k]
  }

  ghost function LevelBefore(rank: map<string, int>, k: nat): set<string> {
    if k == 0 then {} else Level(rank, k - 1)
  }

  /** The union of the first k levels. */
  ghost function Below(rank: map<string, int>, k: nat): set<string> {
    if k == 0 then {} else Below(rank, k - 1) + Level(rank, k - 1)
  }

  /** The two ranks order the stages alike. */
  ghost predicate SameRanking(f: map<string, int>, h: map<string, int>) {
    && f.Keys == h.Keys
    && forall a, b :: a in f && b in f ==> (f[a] < f[b] <==> h[a] < h[b])
  }

  ghost predicate SameLevels(f: map<string, int>, h: map<string, int>) {
    forall k: nat :: Level(f, k) == Level(h, k)
  }

  lemma {:induction false} BelowMeaning(rank: map<string, int>, k: nat)
    ensures forall n :: n in Below(rank, k) <==>
              n in rank && (k < |RankKeys(rank)| ==> rank[n] < RankKeys(rank)[k])
  {
    var ks := RankKeys(rank);
    forall n | n in rank ensures exists i :: 0 <= i < |ks| && ks[i] == rank[n] {
      assert rank[n] in rank.Values && rank[n] in ks;
    }
    if k > 0 {
      BelowMeaning(rank, k - 1);
    } else if |ks| > 0 {
      assert forall n :: n in rank ==> ks[0] <= rank[n];
    }
  }

  /** A level holds the least-ranked of the stages that no earlier level holds. */
  lemma LevelIsLeast(rank: map<string, int>, k: nat, n: string)
    ensures n in Level(rank, k) <==>
              && n in rank && n !in Below(rank, k)
              && forall m :: m in rank && rank[m] < rank[n] ==> m in Below(rank, k)
  {
    BelowMeaning(rank, k);
    var ks := RankKeys(rank);
    if n in rank {
      assert rank[n] in rank.Values && rank[n] in ks;
    }
    if k < |ks| {
      assert ks[k] in ks;
      var m := KeyOf(rank, ks[k]);
    }
  }

  lemma {:induction false} SameRankingSameBelow(f: map<string, int>, h: map<string, int>, k: nat)
    requires SameRanking(f, h)
    ensures Below(f, k) == Below(h, k) && Level(f, k) == Level(h, k)
  {
    hide Level, RankKeys;
    if k > 0 {
      SameRankingSameBelow(f, h, k - 1);
    }
    SameLeast(f, h, k);
  }

  lemma SameLeast(f: map<string, int>, h: map<string, int>, k: nat)
    requires SameRanking(f, h) && Below(f, k) == Below(h, k)
    ensures Level(f, k) == Level(h, k)
  {
    hide Level, Below;
    forall n ensures n in Level(f, k) <==> n in Level(h, k) {
      LevelIsLeast(f, k, n);
      LevelIsLeast(h, k, n);
    }
  }

  lemma {:induction false} SameLevelsSameBelow(f: map<string, int>, h: map<string, int>, k: nat)
    requires SameLevels(f, h)
    ensures Below(f, k) == Below(h, k)
  {
    if k > 0 {
      SameLevelsSameBelow(f, h, k - 1);
      assert Level(f, k - 1) == Level(h, k - 1);
    }
  }

  ghost predicate Separates(s: set<string>, a: string, b: string) {
    a in s && b !in s
  }

  lemma LowerRankComesFirst(rank: map<string, int>, a: string, b: string)
    requires a in rank && b in rank && rank[a] < rank[b]
    ensures exists k: nat :: Separates(Below(rank, k), a, b)
  {
    var ks := RankKeys(rank);
    assert rank[b] in rank.Values && rank[b] in ks;
    var k :| 0 <= k < |ks| && ks[k] == rank[b];
    BelowMeaning(rank, k);
    assert Separates(Below(rank, k), a, b);
  }

  lemma SeparatedMeansLower(rank: map<string, int>, k: nat, a: string, b: string)
    requires a in rank && b in rank && Separates(Below(rank, k), a, b)
    ensures rank[a] < rank[b]
  {
    BelowMeaning(rank, k);
  }

  lemma SameLevelsIffSameRanking(f: map<string, int>, h: map<string, int>)
    requires f.Keys == h.Keys
    ensures SameLevels(f, h) <==> SameRanking(f, h)
  {
    if SameRanking(f, h) {
      forall k: nat ensures Level(f, k) == Level(h, k) {
        SameRankingSameBelow(f, h, k);
      }
    }
    if SameLevels(f, h) {
      forall a, b | a in f && b in f ensures f[a] < f[b] <==> h[a] < h[b] {
        SameLevelsKeepOrder(f, h, a, b);
        SameLevelsKeepOrder(h, f, a, b);
      }
    }
  }

  lemma SameLevelsKeepOrder(f: map<string, int>, h: map<string, int>, a: string, b: string)
    requires f.Keys == h.Keys && SameLevels(f, h) && a in f && b in f
    ensures f[a] < f[b] ==> h[a] < h[b]
  {
    if f[a] < f[b] {
      LowerRankComesFirst(f, a, b);
      var k: nat :| Separates(Below(f, k), a, b);
      SameLevelsSameBelow(f, h, k);
      SeparatedMeansLower(h, k, a, b);
    }
  }

  // ---------------------------------------------------------------- what the inferred graph looks like

  lemma {:induction false} RankOf(defs: seq<StageDef>, i: nat)
    requires OneOrderPerName(defs) && i < |defs|
    ensures defs[i].name in GraphRanks(defs) && GraphRanks(defs)[defs[i].name] == GraphOrder(defs[i])
  {
    var init := defs[..|defs| - 1];
    if i < |init| {
      RankOf(init, i);
      assert init[i] == defs[i];
    }
  }

  lemma {:induction false} DefOf(defs: seq<StageDef>, n: string) returns (i: nat)
    requires OneOrderPerName(defs) && n in GraphRanks(defs)
    ensures i < |defs| && defs[i].name == n && GraphRanks(defs)[n] == GraphOrder(defs[i]) && defs[i] in defs
  {
    i := |defs| - 1;
    if defs[i].name != n {
      i := DefOf(defs[..|defs| - 1], n);
    }
  }

  lemma IndexOf(defs: seq<StageDef>, sd: StageDef) returns (i: nat)
    requires sd in defs
    ensures i < |defs| && defs[i] == sd
  {
    i :| 0 <= i < |defs| && defs[i] == sd;
  }

  lemma KeyOf(rank: map<string, int>, o: int) returns (n: string)
    requires o in rank.Values
    ensures n in rank && rank[n] == o
  {
    n :| n in rank && rank[n] == o;
  }

  lemma RankKeysAreOrders(defs: seq<StageDef>)
    requires OneOrderPerName(defs)
    ensures RankKeys(GraphRanks(defs)) == Orders(defs)
  {
    var rank, orders := GraphRanks(defs), set sd | sd in defs :: GraphOrder(sd);
    forall o | o in rank.Values ensures o in orders {
      var n := KeyOf(rank, o);
      var i := DefOf(defs, n);
    }
    forall o | o in orders ensures o in rank.Values {
      var sd :| sd in defs && GraphOrder(sd) == o;
      var i := IndexOf(defs, sd);
      RankOf(defs, i);
    }
    assert rank.Values == orders;
  }

  lemma LevelIsGroup(defs: seq<StageDef>, k: nat)
    requires OneOrderPerName(defs) && k < |Orders(defs)|
    ensures ToSet(Names(WithOrder(defs, Orders(defs)[k]))) == Level(GraphRanks(defs), k)
  {
    RankKeysAreOrders(defs);
    var o := Orders(defs)[k];
    forall n ensures n in Names(WithOrder(defs, o)) <==> n in Level(GraphRanks(defs), k) {
      if n in Names(WithOrder(defs, o)) { NamedInGroup(defs, o, n); }
      if n in Level(GraphRanks(defs), k) { RankedInGroup(defs, o, n); }
    }
  }

  lemma NamedInGroup(defs: seq<StageDef>, o: int, n: string)
    requires OneOrderPerName(defs) && n in Names(WithOrder(defs, o))
    ensures n in GraphRanks(defs) && GraphRanks(defs)[n] == o
  {
    var group := WithOrder(defs, o);
    var i :| 0 <= i < |group| && Names(group)[i] == n;
    assert group[i] in group;
    var j := IndexOf(defs, group[i]);
    RankOf(defs, j);
  }

  lemma RankedInGroup(defs: seq<StageDef>, o: int, n: string)
    requires OneOrderPerName(defs) && n in GraphRanks(defs) && GraphRanks(defs)[n] == o
    ensures n in Names(WithOrder(defs, o))
  {
    var j := DefOf(defs, n);
    var i := IndexOf(WithOrder(defs, o), defs[j]);
    assert Names(WithOrder(defs, o))[i] == n;
  }

  lemma {:induction false} PutGroupEffect(g: NodeDict, group: seq<StageDef>, deps: seq<string>, order: int)
    ensures var h := PutGroup(g, group, deps, order);
            && h.at.Keys == g.at.Keys + ToSet(Names(group))
            && (forall n :: n in Names(group) ==> h.at[n].dependsOn == Some(deps))
            && (forall n :: n in g.at && n !in Names(group) ==> h.at[n] == g.at[n])
  {
    if group == [] {
      assert ToSet(Names(group)) == {};
    } else {
      var init := group[..|group| - 1];
      PutGroupEffect(g, init, deps, order);
      assert Names(group) == Names(init) + [Last(group).name];
    }
  }

  lemma LevelsAreDisjoint(rank: map<string, int>, i: nat, j: nat, n: string)
    requires n in Level(rank, i) && n in Level(rank, j)
    ensures i == j
  {
  }

  /** After k groups the graph holds the first k levels, each depending on exactly the level before it. */
  ghost predicate HoldsLevels(g: NodeDict, rank: map<string, int>, k: nat) {
    && g.at.Keys == Below(rank, k)
    && forall j, n :: 0 <= j < k && n in Level(rank, j) ==>
         n in g.at && ToSet(g.at[n].Deps()) == LevelBefore(rank, j)
  }

  lemma AddLevel(g: NodeDict, rank: map<string, int>, k: nat, h: NodeDict, deps: seq<string>)
    requires HoldsLevels(g, rank, k)
    requires h.at.Keys == g.at.Keys + Level(rank, k)
    requires forall n :: n in Level(rank, k) ==> h.at[n].dependsOn == Some(deps)
    requires forall n :: n in g.at && n !in Level(rank, k) ==> h.at[n] == g.at[n]
    requires ToSet(deps) == LevelBefore(rank, k)
    ensures HoldsLevels(h, rank, k + 1)
  {
    forall j, n | 0 <= j < k + 1 && n in Level(rank, j)
      ensures n in h.at && ToSet(h.at[n].Deps()) == LevelBefore(rank, j)
    {
      if n in Level(rank, k) { LevelsAreDisjoint(rank, j, k, n); }
    }
  }

  lemma {:induction false} PutGroupsEffect(defs: seq<StageDef>, k: nat)
    requires OneOrderPerName(defs) && k <= |Orders(defs)|
    ensures HoldsLevels(PutGroups(defs, Orders(defs), k), GraphRanks(defs), k)
  {
    hide Level, Orders, GraphRanks, WithOrder, PutGroup;
    var rank, ks := GraphRanks(defs), Orders(defs);
    if k > 0 {
      PutGroupsEffect(defs, k - 1);
      var g, group, deps := PutGroups(defs, ks, k - 1), WithOrder(defs, ks[k - 1]), PreviousNames(defs, ks, k - 1);
      PutGroupEffect(g, group, deps, ks[k - 1]);
      LevelIsGroup(defs, k - 1);
      assert forall n :: n in Names(group) <==> n in ToSet(Names(group));
      if k > 1 {
        LevelIsGroup(defs, k - 2);
      } else {
        assert ToSet(deps) == {};
      }
      AddLevel(g, rank, k - 1, PutGroups(defs, ks, k), deps);
    }
  }

  ghost function ReadySet(g: NodeDict, completed: set<string>, skipped: set<string>, counts: map<string, int>): set<string> {
    ToSet(ReadyAmong(g, g.keys, completed, {}, {}, skipped, counts))
  }

  lemma EveryStageHasALevel(rank: map<string, int>, n: string) returns (j: nat)
    requires n in rank
    ensures j < |RankKeys(rank)| && n in Level(rank, j)
  {
    assert rank[n] in rank.Values && rank[n] in RankKeys(rank);
    j :| 0 <= j < |RankKeys(rank)| && RankKeys(rank)[j] == rank[n];
  }

  lemma LevelsBelow(rank: map<string, int>, j: nat, k: nat, n: string)
    requires n in Level(rank, j)
    ensures n in Below(rank, k) <==> j < k
  {
    BelowMeaning(rank, k);
  }

  lemma LevelBeforeIsInhabited(rank: map<string, int>, j: nat) returns (d: string)
    requires j < |RankKeys(rank)|
    ensures d in Level(rank, j)
  {
    assert RankKeys(rank)[j] in RankKeys(rank);
    d := KeyOf(rank, RankKeys(rank)[j]);
  }

  /** When exactly the first k levels are completed or skipped, exactly the k-th is ready. */
  lemma InferredReadySet(defs: seq<StageDef>, k: nat, completed: set<string>, skipped: set<string>, counts: map<string, int>)
    requires OneOrderPerName(defs) && !NamesDependencies(defs)
    requires completed + skipped == Below(GraphRanks(defs), k)
    ensures ReadySet(GraphOf(defs), completed, skipped, counts) == Level(GraphRanks(defs), k)
  {
    var rank, ks, g := GraphRanks(defs), Orders(defs), GraphOf(defs);
    RankKeysAreOrders(defs);
    PutGroupsEffect(defs, |ks|);
    InferredGraphIsValid(defs, ks, |ks|);
    forall n ensures n in ReadySet(g, completed, skipped, counts) <==> n in Level(rank, k) {
      ReadyAtLevel(g, rank, k, completed, skipped, counts, n);
    }
  }

  lemma ReadyAtLevel(g: NodeDict, rank: map<string, int>, k: nat, completed: set<string>, skipped: set<string>,
                     counts: map<string, int>, n: string)
    requires g.Valid() && HoldsLevels(g, rank, |RankKeys(rank)|)
    requires completed + skipped == Below(rank, k)
    ensures IsReady(g, n, completed, {}, {}, skipped, counts) <==> n in Level(rank, k)
    ensures n in ReadySet(g, completed, skipped, counts) <==> n in Level(rank, k)
  {
    hide Level, Below, RankKeys, LevelBefore;
    assert n in ReadySet(g, completed, skipped, counts) <==> n in g.keys && IsReady(g, n, completed, {}, {}, skipped, counts);
    if n in rank {
      var j := EveryStageHasALevel(rank, n);
      LevelsBelow(rank, j, k, n);
      if n in Level(rank, k) { LevelsAreDisjoint(rank, j, k, n); }
      DependenciesOfLevel(g, rank, |RankKeys(rank)|, j, n);
      if j >= k {
        LevelBeforeIsDone(rank, j, k);
        assert forall d :: d in g.at[n].Deps() <==> d in ToSet(g.at[n].Deps());
      }
    } else {
      OutsideTheLevels(rank, k, n);
    }
  }

  /** Of the levels from k on, exactly level k has its predecessors below k. */
  lemma LevelBeforeIsDone(rank: map<string, int>, j: nat, k: nat)
    requires k <= j < |RankKeys(rank)|
    ensures j == k <==> forall d :: d in LevelBefore(rank, j) ==> d in Below(rank, k)
  {
    hide Level, Below, RankKeys;
    if j == k {
      forall d | d in LevelBefore(rank, j) ensures d in Below(rank, k) {
        LevelsBelow(rank, k - 1, k, d);
      }
    } else {
      var d := LevelBeforeIsInhabited(rank, j - 1);
      LevelsBelow(rank, j - 1, k, d);
    }
  }

  lemma OutsideTheLevels(rank: map<string, int>, k: nat, n: string)
    requires n !in rank
    ensures n !in Level(rank, k) && n !in Below(rank, |RankKeys(rank)|)
  {
    BelowMeaning(rank, |RankKeys(rank)|);
  }

  // ---------------------------------------------------------------- the two modes agree

  ghost function LinearRanks(stages: seq<string>, defs: seq<StageDef>): map<string, int> {
    map s | s in stages :: LinearOrder(OrderMap(defs), s)
  }

  /** The k-th group that GroupStagesByOrder returns, as a set; empty past the last group. */
  ghost function LinearGroup(stages: seq<string>, defs: seq<StageDef>, k: nat): set<string> {
    var ks := LinearKeys(stages, OrderMap(defs));
    if k < |ks| then ToSet(StagesAt(stages, OrderMap(defs), ks[k])) else {}
  }

  ghost function LinearDone(stages: seq<string>, defs: seq<StageDef>, k: nat): set<string> {
    if k == 0 then {} else LinearDone(stages, defs, k - 1) + LinearGroup(stages, defs, k - 1)
  }

  /** Once the first k groups are completed or skipped, the graph offers exactly the k-th group. */
  ghost predicate GraphFollowsGroups(defs: seq<StageDef>, stages: seq<string>) {
    forall k: nat, completed, skipped, counts :: completed + skipped == LinearDone(stages, defs, k) ==>
      ReadySet(GraphOf(defs), completed, skipped, counts) == LinearGroup(stages, defs, k)
  }

  lemma LinearGroupIsLevel(stages: seq<string>, defs: seq<StageDef>, k: nat)
    ensures LinearGroup(stages, defs, k) == Level(LinearRanks(stages, defs), k)
  {
    var rank := LinearRanks(stages, defs);
    var orders := set s | s in stages :: LinearOrder(OrderMap(defs), s);
    forall o | o in rank.Values ensures o in orders {
      var s :| s in rank && rank[s] == o;
    }
    forall o | o in orders ensures o in rank.Values {
      var s :| s in stages && LinearOrder(OrderMap(defs), s) == o;
      assert s in rank;
    }
    assert rank.Values == orders;
  }

  lemma {:induction false} LinearDoneIsBelow(stages: seq<string>, defs: seq<StageDef>, k: nat)
    ensures LinearDone(stages, defs, k) == Below(LinearRanks(stages, defs), k)
  {
    hide Level, LinearGroup, LinearRanks;
    if k > 0 {
      LinearDoneIsBelow(stages, defs, k - 1);
      LinearGroupIsLevel(stages, defs, k - 1);
    }
  }

  lemma {:induction false} FollowingMeansSameBelow(defs: seq<StageDef>, stages: seq<string>, k: nat)
    requires OneOrderPerName(defs) && !NamesDependencies(defs)
    requires GraphFollowsGroups(defs, stages)
    ensures Below(GraphRanks(defs), k) == LinearDone(stages, defs, k)
    ensures Level(GraphRanks(defs), k) == LinearGroup(stages, defs, k)
  {
    if k > 0 {
      FollowingMeansSameBelow(defs, stages, k - 1);
    }
    var done := LinearDone(stages, defs, k);
    assert done + {} == done;
    InferredReadySet(defs, k, done, {}, map[]);
  }

  lemma {:induction false} GroupKeepsValid(g: NodeDict, group: seq<StageDef>, deps: seq<string>, order: int)
    requires g.Valid()
    ensures PutGroup(g, group, deps, order).Valid()
  {
    if group != [] {
      GroupKeepsValid(g, group[..|group| - 1], deps, order);
      PutKeepsValid(PutGroup(g, group[..|group| - 1], deps, order), Last(group).name, NodeOf(Last(group), Some(deps), order));
    }
  }

  lemma {:induction false} InferredGraphIsValid(defs: seq<StageDef>, ks: seq<int>, k: nat)
    requires k <= |ks|
    ensures PutGroups(defs, ks, k).Valid()
  {
    hide *;
    if k == 0 {
      NoGroupIsValid(defs, ks);
    } else {
      InferredGraphIsValid(defs, ks, k - 1);
      OneMoreGroupIsValid(defs, ks, k);
    }
  }

  lemma NoGroupIsValid(defs: seq<StageDef>, ks: seq<int>)
    ensures PutGroups(defs, ks, 0).Valid()
  {
  }

  lemma OneMoreGroupIsValid(defs: seq<StageDef>, ks: seq<int>, k: nat)
    requires 0 < k <= |ks| && PutGroups(defs, ks, k - 1).Valid()
    ensures PutGroups(defs, ks, k).Valid()
  {
    hide Dict.Valid, PutGroup, WithOrder;
    GroupKeepsValid(PutGroups(defs, ks, k - 1), WithOrder(defs, ks[k - 1]), PreviousNames(defs, ks, k - 1), ks[k - 1]);
  }

  lemma OneOrderIsAcyclic(defs: seq<StageDef>)
    requires OneOrderPerName(defs) && !NamesDependencies(defs)
    ensures !Cyclic(GraphOf(defs))
  {
    var rank, g := GraphRanks(defs), GraphOf(defs);
    RankKeysAreOrders(defs);
    PutGroupsEffect(defs, |Orders(defs)|);
    forall a, b | DependsOn(g, a, b) ensures a in rank && b in rank && rank[b] < rank[a] && b in g.at {
      DependenciesRankLower(g, rank, a, b);
    }
    if n :| Reaches(g, n, n) {
      var p :| PathFromTo(g, p, n, n);
      RanksFallAlongPaths(g, rank, p);
    }
  }

  lemma DependenciesRankLower(g: NodeDict, rank: map<string, int>, a: string, b: string)
    requires HoldsLevels(g, rank, |RankKeys(rank)|) && DependsOn(g, a, b)
    ensures a in rank && b in rank && b in g.at && rank[b] < rank[a]
  {
    BelowMeaning(rank, |RankKeys(rank)|);
    hide Below, Level, RankKeys;
    var j := EveryStageHasALevel(rank, a);
    DependenciesOfLevel(g, rank, |RankKeys(rank)|, j, a);
    assert b in ToSet(g.at[a].Deps());
    if j > 0 {
      LowerLevelRanksLower(rank, j, b, a);
    }
  }

  lemma DependenciesOfLevel(g: NodeDict, rank: map<string, int>, k: nat, j: nat, n: string)
    requires HoldsLevels(g, rank, k) && j < k && n in Level(rank, j)
    ensures n in g.at && ToSet(g.at[n].Deps()) == LevelBefore(rank, j)
  {
    hide Below, Level, LevelBefore;
  }

  lemma LowerLevelRanksLower(rank: map<string, int>, j: nat, b: string, a: string)
    requires j > 0 && b in Level(rank, j - 1) && a in Level(rank, j)
    ensures b in rank && a in rank && rank[b] < rank[a]
  {
    hide RankKeys;
    var ks := RankKeys(rank);
    assert ks[j - 1] < ks[j];
  }

  lemma {:induction false} RanksFallAlongPaths(g: NodeDict, rank: map<string, int>, p: seq<string>)
    requires forall a, b :: DependsOn(g, a, b) ==> a in rank && b in rank && rank[b] < rank[a]
    requires IsPath(g, p) && |p| > 1
    ensures p[0] in rank && Last(p) in rank && rank[Last(p)] < rank[p[0]]
  {
    assert DependsOn(g, p[0], p[1]);
    if |p| > 2 {
      var q := p[1..];
      forall i | 0 <= i < |q| - 1 ensures DependsOn(g, q[i], q[i + 1]) {
        assert DependsOn(g, p[i + 1], p[i + 2]);
      }
      RanksFallAlongPaths(g, rank, q);
    }
  }

  // ---------------------------------------------------------------- names under two orders

  /** The name occurs in the k-th group. */
  ghost predicate InGroup(defs: seq<StageDef>, n: string, k: nat) {
    k < |Orders(defs)| && n in Names(WithOrder(defs, Orders(defs)[k]))
  }

  ghost predicate LastGroup(defs: seq<StageDef>, n: string, m: nat) {
    InGroup(defs, n, m) && forall i: nat :: i > m ==> !InGroup(defs, n, i)
  }

  /** The name occurs in group j and again in a later one. */
  ghost predicate Recurs(defs: seq<StageDef>, n: string, j: nat) {
    InGroup(defs, n, j) && exists f: nat :: f > j && InGroup(defs, n, f)
  }

  lemma {:induction false} LastGroupOf(defs: seq<StageDef>, n: string, j: nat) returns (m: nat)
    requires InGroup(defs, n, j)
    ensures m >= j && LastGroup(defs, n, m)
    decreases |Orders(defs)| - j
  {
    hide WithOrder, Orders, Names;
    if f: nat :| f > j && InGroup(defs, n, f) {
      m := LastGroupOf(defs, n, f);
    } else {
      m := j;
    }
  }

  /** A node keeps the dependencies it got in the last group that has its name. */
  lemma {:induction false} LastGroupWins(defs: seq<StageDef>, k: nat, n: string, m: nat)
    requires m < k <= |Orders(defs)| && InGroup(defs, n, m)
    requires forall i: nat :: m < i < k ==> !InGroup(defs, n, i)
    ensures n in PutGroups(defs, Orders(defs), k).at
    ensures PutGroups(defs, Orders(defs), k).at[n].dependsOn == Some(PreviousNames(defs, Orders(defs), m))
  {
    hide Orders, WithOrder, PutGroup, Names, PreviousNames;
    var ks := Orders(defs);
    var g, group, deps := PutGroups(defs, ks, k - 1), WithOrder(defs, ks[k - 1]), PreviousNames(defs, ks, k - 1);
    PutGroupEffect(g, group, deps, ks[k - 1]);
    if m < k - 1 {
      LastGroupWins(defs, k - 1, n, m);
      assert !InGroup(defs, n, k - 1);
    }
  }

  lemma {:induction false} NodesAreInGroups(defs: seq<StageDef>, k: nat, n: string) returns (j: nat)
    requires k <= |Orders(defs)| && n in PutGroups(defs, Orders(defs), k).at
    ensures InGroup(defs, n, j)
  {
    hide Orders, WithOrder, PutGroup, Names, PreviousNames;
    var ks := Orders(defs);
    assert k > 0;
    PutGroupEffect(PutGroups(defs, ks, k - 1), WithOrder(defs, ks[k - 1]), PreviousNames(defs, ks, k - 1), ks[k - 1]);
    if n in Names(WithOrder(defs, ks[k - 1])) {
      j := k - 1;
    } else {
      j := NodesAreInGroups(defs, k - 1, n);
    }
  }

  /** A stage depends on exactly the names of the group before its last one. */
  lemma DependenciesOfNode(defs: seq<StageDef>, n: string, m: nat)
    requires !NamesDependencies(defs) && LastGroup(defs, n, m)
    ensures n in GraphOf(defs).at && GraphOf(defs).at[n].dependsOn.Some?
    ensures forall d :: DependsOn(GraphOf(defs), n, d) <==> m > 0 && InGroup(defs, d, m - 1)
  {
    LastGroupWins(defs, |Orders(defs)|, n, m);
    hide Orders, WithOrder, PutGroups, Names;
  }

  /** Whatever the names, an inferred graph has no unknown dependency and no null list. */
  lemma InferredDependenciesAreKnown(defs: seq<StageDef>)
    requires !NamesDependencies(defs)
    ensures forall a, d :: DependsOn(GraphOf(defs), a, d) ==> d in GraphOf(defs).at
    ensures !HasNullList(GraphOf(defs))
  {
    hide WithOrder, PutGroups, Names, Orders;
    forall a | a in GraphOf(defs).at
      ensures GraphOf(defs).at[a].dependsOn.Some?
      ensures forall d :: DependsOn(GraphOf(defs), a, d) ==> d in GraphOf(defs).at
    {
      var j := NodesAreInGroups(defs, |Orders(defs)|, a);
      var m := LastGroupOf(defs, a, j);
      DependenciesOfNode(defs, a, m);
      forall d | DependsOn(GraphOf(defs), a, d) ensures d in GraphOf(defs).at {
        var f := LastGroupOf(defs, d, m - 1);
        DependenciesOfNode(defs, d, f);
      }
    }
  }

  lemma GroupsAreFilled(defs: seq<StageDef>, k: nat) returns (n: string)
    requires k < |Orders(defs)|
    ensures InGroup(defs, n, k)
  {
    var used := set sd | sd in defs :: GraphOrder(sd);
    assert Orders(defs)[k] in used;
    var sd :| sd in defs && GraphOrder(sd) == Orders(defs)[k];
    var i := IndexOf(WithOrder(defs, Orders(defs)[k]), sd);
    n := sd.name;
    assert Names(WithOrder(defs, Orders(defs)[k]))[i] == n;
  }

  /** If no name of a group after j recurs, each of their stages depends on all of group j, at some distance. */
  lemma {:induction false} DescendsTo(defs: seq<StageDef>, x: string, i: nat, d: string, j: nat)
    requires !NamesDependencies(defs) && j < i && LastGroup(defs, x, i) && InGroup(defs, d, j)
    requires forall k: nat, n :: k > j ==> !Recurs(defs, n, k)
    ensures Reaches(GraphOf(defs), x, d)
    decreases i
  {
    hide *;
    DependenciesOfNode(defs, x, i);
    if i == j + 1 {
      EdgeReaches(GraphOf(defs), x, d);
    } else {
      BoundedGroup(defs, x, i);
      var y := GroupsAreFilled(defs, i - 1);
      NotRecurring(defs, y, i - 1);
      DescendsTo(defs, y, i - 1, d, j);
      EdgeReaches(GraphOf(defs), x, y);
      ReachesTransitive(GraphOf(defs), x, y, d);
    }
  }

  lemma BoundedGroup(defs: seq<StageDef>, x: string, i: nat)
    requires LastGroup(defs, x, i)
    ensures i < |Orders(defs)|
  {
  }

  lemma NotRecurring(defs: seq<StageDef>, n: string, k: nat)
    requires InGroup(defs, n, k) && !Recurs(defs, n, k)
    ensures LastGroup(defs, n, k)
  {
    hide InGroup;
  }

  /** A name that recurs closes a cycle: the last group with a recurring name is reached from its later stages. */
  lemma {:induction false} RecurringIsCyclic(defs: seq<StageDef>, n: string, j: nat)
    requires !NamesDependencies(defs) && Recurs(defs, n, j)
    ensures Cyclic(GraphOf(defs))
    decreases |Orders(defs)| - j
  {
    hide InGroup, Reaches, WithOrder, Orders, Names;
    if k: nat, m :| k > j && Recurs(defs, m, k) {
      InRange(defs, m, k);
      RecurringIsCyclic(defs, m, k);
    } else {
      var f := LastGroupOf(defs, n, j);
      DescendsTo(defs, n, f, n, j);
    }
  }

  lemma InRange(defs: seq<StageDef>, n: string, k: nat)
    requires Recurs(defs, n, k)
    ensures k < |Orders(defs)|
  {
  }

  lemma GroupOfDef(defs: seq<StageDef>, sd: StageDef) returns (k: nat)
    requires sd in defs
    ensures InGroup(defs, sd.name, k) && Orders(defs)[k] == GraphOrder(sd)
  {
    var used := set x | x in defs :: GraphOrder(x);
    assert GraphOrder(sd) in used;
    assert GraphOrder(sd) in Orders(defs);
    k :| 0 <= k < |Orders(defs)| && Orders(defs)[k] == GraphOrder(sd);
    var i := IndexOf(WithOrder(defs, Orders(defs)[k]), sd);
    assert Names(WithOrder(defs, Orders(defs)[k]))[i] == sd.name;
  }

  lemma TwoOrdersAreCyclic(defs: seq<StageDef>, a: StageDef, b: StageDef)
    requires !NamesDependencies(defs) && a in defs && b in defs
    requires a.name == b.name && GraphOrder(a) < GraphOrder(b)
    ensures Cyclic(GraphOf(defs))
  {
    var i := GroupOfDef(defs, a);
    var j := GroupOfDef(defs, b);
    assert StrictlyIncreasing(Orders(defs));
    hide Orders, InGroup, Cyclic, GraphOf;
    assert i < j;
    assert Recurs(defs, a.name, i);
    RecurringIsCyclic(defs, a.name, i);
  }

  /** The inferred graph of any template is acyclic exactly when no name stands under two orders. */
  lemma InferredGraphIsAcyclicExactly(defs: seq<StageDef>)
    requires !NamesDependencies(defs)
    ensures !Cyclic(GraphOf(defs)) <==> OneOrderPerName(defs)
  {
    if OneOrderPerName(defs) {
      OneOrderIsAcyclic(defs);
    } else {
      var i, j :| 0 <= i < j < |defs| && defs[i].name == defs[j].name && GraphOrder(defs[i]) != GraphOrder(defs[j]);
      assert defs[i] in defs && defs[j] in defs;
      if GraphOrder(defs[i]) < GraphOrder(defs[j]) {
        TwoOrdersAreCyclic(defs, defs[i], defs[j]);
      } else {
        TwoOrdersAreCyclic(defs, defs[j], defs[i]);
      }
    }
  }

  // ---------------------------------------------------------------- the two modes agree exactly

  /**
   * Exactly when the inferred graph of a template runs the stages group by group as linear mode does: when no
   * name stands under two orders and the two order defaults (0 for the graph, the position for the groups) rank
   * the stages alike.
   */
  lemma ModesAgreeIffSameRanking(defs: seq<StageDef>, stages: seq<string>)
    requires !NamesDependencies(defs) && ToSet(stages) == GraphRanks(defs).Keys
    ensures GraphFollowsGroups(defs, stages)
            <==> OneOrderPerName(defs) && SameRanking(GraphRanks(defs), LinearRanks(stages, defs))
  {
    if GraphFollowsGroups(defs, stages) {
      FollowingIsAcyclic(defs, stages);
    }
    InferredGraphIsAcyclicExactly(defs);
    if OneOrderPerName(defs) {
      OneOrderModesAgree(defs, stages);
    }
  }

  /** A dependency of the graph stands in an earlier group of linear mode. */
  lemma FollowingRanksFall(defs: seq<StageDef>, stages: seq<string>, a: string, b: string)
    requires !NamesDependencies(defs) && ToSet(stages) == GraphRanks(defs).Keys
    requires GraphFollowsGroups(defs, stages) && DependsOn(GraphOf(defs), a, b)
    ensures var h := LinearRanks(stages, defs); a in h && b in h && h[b] < h[a]
  {
    var h := LinearRanks(stages, defs);
    NodesAreRanked(defs, a);
    assert a in ToSet(stages) && a in h;
    hide RankKeys, Level, Below, LinearRanks, LinearGroup, LinearDone, GraphOf, GraphFollowsGroups, GraphRanks;
    var k := EveryStageHasALevel(h, a);
    LinearGroupIsLevel(stages, defs, k);
    LinearDoneIsBelow(stages, defs, k);
    OfferedAfterGroups(defs, stages, k, a, b);
    BelowRanksLower(h, k, b, a);
  }

  lemma OfferedAfterGroups(defs: seq<StageDef>, stages: seq<string>, k: nat, a: string, b: string)
    requires GraphFollowsGroups(defs, stages) && DependsOn(GraphOf(defs), a, b) && a in LinearGroup(stages, defs, k)
    ensures b in LinearDone(stages, defs, k)
  {
    hide LinearGroup, LinearDone, GraphOf;
    var done := LinearDone(stages, defs, k);
    assert done + {} == done;
    assert a in ReadySet(GraphOf(defs), done, {}, map[]);
  }

  lemma BelowRanksLower(rank: map<string, int>, k: nat, b: string, a: string)
    requires b in Below(rank, k) && a in Level(rank, k)
    ensures b in rank && a in rank && rank[b] < rank[a]
  {
    BelowMeaning(rank, k);
  }

  lemma NodesAreRanked(defs: seq<StageDef>, n: string)
    requires !NamesDependencies(defs) && n in GraphOf(defs).at
    ensures n in GraphRanks(defs)
  {
    var j := NodesAreInGroups(defs, |Orders(defs)|, n);
    var group := WithOrder(defs, Orders(defs)[j]);
    var i :| 0 <= i < |group| && Names(group)[i] == n;
    assert group[i] in group;
    var k := IndexOf(defs, group[i]);
    NamedIsRanked(defs, k);
  }

  lemma {:induction false} NamedIsRanked(defs: seq<StageDef>, i: nat)
    requires i < |defs|
    ensures defs[i].name in GraphRanks(defs)
  {
    if i < |defs| - 1 {
      NamedIsRanked(defs[..|defs| - 1], i);
    }
  }

  lemma FollowingIsAcyclic(defs: seq<StageDef>, stages: seq<string>)
    requires !NamesDependencies(defs) && ToSet(stages) == GraphRanks(defs).Keys
    requires GraphFollowsGroups(defs, stages)
    ensures !Cyclic(GraphOf(defs))
  {
    var h, g := LinearRanks(stages, defs), GraphOf(defs);
    hide LinearRanks, GraphFollowsGroups, GraphOf;
    forall a, b | DependsOn(g, a, b) ensures a in h && b in h && h[b] < h[a] {
      FollowingRanksFall(defs, stages, a, b);
    }
    if n :| Reaches(g, n, n) {
      var p :| PathFromTo(g, p, n, n);
      RanksFallAlongPaths(g, h, p);
    }
  }

  lemma OneOrderModesAgree(defs: seq<StageDef>, stages: seq<string>)
    requires OneOrderPerName(defs) && !NamesDependencies(defs)
    requires ToSet(stages) == GraphRanks(defs).Keys
    ensures GraphFollowsGroups(defs, stages) <==> SameRanking(GraphRanks(defs), LinearRanks(stages, defs))
  {
    var f, h := GraphRanks(defs), LinearRanks(stages, defs);
    assert h.Keys == ToSet(stages);
    SameLevelsIffSameRanking(f, h);
    if GraphFollowsGroups(defs, stages) {
      forall k: nat ensures Level(f, k) == Level(h, k) {
        FollowingMeansSameBelow(defs, stages, k);
        LinearGroupIsLevel(stages, defs, k);
      }
    }
    if SameRanking(f, h) {
      forall k: nat, completed, skipped, counts | completed + skipped == LinearDone(stages, defs, k)
        ensures ReadySet(GraphOf(defs), completed, skipped, counts) == LinearGroup(stages, defs, k)
      {
        SameRankingSameBelow(f, h, k);
        LinearDoneIsBelow(stages, defs, k);
        LinearGroupIsLevel(stages, defs, k);
        InferredReadySet(defs, k, completed, skipped, counts);
      }
    }
  }

  /** With every order given, the graph does what linear mode does exactly when no name stands under two orders. */
  lemma ExplicitOrdersAgree(defs: seq<StageDef>, stages: seq<string>)
    requires !NamesDependencies(defs) && ToSet(stages) == GraphRanks(defs).Keys
    requires forall sd :: sd in defs ==> sd.order.Some?
    ensures GraphFollowsGroups(defs, stages) <==> OneOrderPerName(defs)
  {
    ExplicitRanksAreEqual(defs);
    ModesAgreeIffSameRanking(defs, stages);
  }

  lemma {:induction false} ExplicitRanksAreEqual(defs: seq<StageDef>)
    requires forall sd :: sd in defs ==> sd.order.Some?
    ensures OrderMap(defs) == GraphRanks(defs)
  {
    if defs != [] {
      assert Last(defs) in defs;
      assert forall sd :: sd in defs[..|defs| - 1] ==> sd in defs;
      ExplicitRanksAreEqual(defs[..|defs| - 1]);
    }
  }

  /** Without orders, a stage's place in linear mode is its last position in the template. */
  lemma {:induction false} LastPosition(defs: seq<StageDef>, n: string) returns (i: nat)
    requires n in GraphRanks(defs) && forall sd :: sd in defs ==> sd.order.None?
    ensures i < |defs| && defs[i].name == n
    ensures n in OrderMap(defs) && OrderMap(defs)[n] == i && GraphRanks(defs)[n] == 0
  {
    i := |defs| - 1;
    assert defs[i] in defs;
    if defs[i].name != n {
      var init := defs[..i];
      assert forall sd :: sd in init ==> sd in defs;
      i := LastPosition(init, n);
    }
  }

  /** Without any orders the two modes differ as soon as there are two stages: all at once, or one after the other. */
  lemma MissingOrdersDisagree(defs: seq<StageDef>, stages: seq<string>)
    requires !NamesDependencies(defs) && ToSet(stages) == GraphRanks(defs).Keys
    requires forall sd :: sd in defs ==> sd.order.None?
    ensures GraphFollowsGroups(defs, stages) <==> forall a, b :: a in stages && b in stages ==> a == b
  {
    var f, h := GraphRanks(defs), LinearRanks(stages, defs);
    ModesAgreeIffSameRanking(defs, stages);
    assert OneOrderPerName(defs);
    assert forall n :: n in stages <==> n in ToSet(stages);
    assert h.Keys == ToSet(stages);
    forall a, b | a in f && b in f ensures f[a] == f[b] && (h[a] == h[b] ==> a == b) {
      var i := LastPosition(defs, a);
      var j := LastPosition(defs, b);
    }
    hide GraphFollowsGroups, GraphRanks, LinearRanks, OneOrderPerName;
    if a, b :| a in stages && b in stages && a != b {
      assert a in f && b in f && h[a] != h[b];
      assert h[a] < h[b] || h[b] < h[a];
    }
  }

  // ---------------------------------------------------------------- what a node keeps of its definition

  /** Each node carries the redirect, the limit (1 when absent) and the order (0 when absent) of a definition of its name. */
  ghost predicate CarriesDefinitions(g: NodeDict, defs: seq<StageDef>) {
    forall n :: n in g.at ==> exists sd :: sd in defs && sd.name == n && Carries(g.at[n], sd)
  }

  predicate Carries(node: StageNode, sd: StageDef) {
    && node.name == sd.name && node.onFailure == sd.onFailure
    && (sd.maxExecutions.Some? ==> node.maxExecutions == sd.maxExecutions.value)
    && (sd.maxExecutions.None? ==> node.maxExecutions == 1)
    && (sd.order.Some? ==> node.order == sd.order.value) && (sd.order.None? ==> node.order == 0)
  }

  lemma {:induction false} GroupCarries(g: NodeDict, defs: seq<StageDef>, group: seq<StageDef>, deps: seq<string>, order: int)
    requires CarriesDefinitions(g, defs) && forall sd :: sd in group ==> sd in defs && GraphOrder(sd) == order
    ensures CarriesDefinitions(PutGroup(g, group, deps, order), defs)
  {
    if group != [] {
      assert Last(group) in group;
      assert Carries(NodeOf(Last(group), Some(deps), order), Last(group));
      GroupCarries(g, defs, group[..|group| - 1], deps, order);
    }
  }

  lemma {:induction false} GroupsCarry(defs: seq<StageDef>, ks: seq<int>, k: nat)
    requires k <= |ks|
    ensures CarriesDefinitions(PutGroups(defs, ks, k), defs)
  {
    if k == 0 {
      assert CarriesDefinitions(EmptyDict, defs);
    } else {
      GroupsCarry(defs, ks, k - 1);
      OneMoreGroupCarries(defs, ks, k);
      hide *;
    }
  }

  lemma OneMoreGroupCarries(defs: seq<StageDef>, ks: seq<int>, k: nat)
    requires 0 < k <= |ks| && CarriesDefinitions(PutGroups(defs, ks, k - 1), defs)
    ensures CarriesDefinitions(PutGroups(defs, ks, k), defs)
  {
    hide CarriesDefinitions, PutGroup, WithOrder;
    GroupCarries(PutGroups(defs, ks, k - 1), defs, WithOrder(defs, ks[k - 1]), PreviousNames(defs, ks, k - 1), ks[k - 1]);
  }

  /** The last definition of its name. */
  ghost predicate IsFinal(defs: seq<StageDef>, i: nat) {
    i < |defs| && forall j :: i < j < |defs| ==> defs[j].name != defs[i].name
  }

  /** In explicit mode the last definition of a name wins, with the dependencies it states. */
  lemma {:induction false} ExplicitNode(defs: seq<StageDef>, i: nat)
    requires IsFinal(defs, i)
    ensures defs[i].name in PutExplicit(defs).at
    ensures Carries(PutExplicit(defs).at[defs[i].name], defs[i]) && PutExplicit(defs).at[defs[i].name].dependsOn == defs[i].dependsOn
  {
    var init := defs[..|defs| - 1];
    if i < |init| {
      assert forall j :: i < j < |init| ==> init[j] == defs[j];
      ExplicitNode(init, i);
    }
  }

  lemma {:induction false} ExplicitCarries(defs: seq<StageDef>)
    ensures CarriesDefinitions(PutExplicit(defs), defs)
  {
    if defs != [] {
      var init, last := defs[..|defs| - 1], Last(defs);
      ExplicitCarries(init);
      assert forall sd :: sd in init ==> sd in defs;
      assert Carries(PutExplicit(defs).at[last.name], last) && last in defs;
    }
  }

  lemma {:induction false} FinalDefinition(defs: seq<StageDef>, n: string) returns (i: nat)
    requires n in PutExplicit(defs).at
    ensures IsFinal(defs, i) && defs[i].name == n
  {
    i := |defs| - 1;
    if defs[i].name != n {
      i := FinalDefinition(defs[..|defs| - 1], n);
    }
  }

  /**
   * Validating the graph of a template raises exactly when some stage names a dependency and the definition that
   * counts for some name has null instead of a list.
   */
  lemma TemplateRaisesExactly(defs: seq<StageDef>)
    ensures HasNullList(GraphOf(defs)) <==>
              NamesDependencies(defs) && exists i: nat :: IsFinal(defs, i) && defs[i].dependsOn.None?
  {
    if NamesDependencies(defs) {
      if HasNullList(GraphOf(defs)) {
        var n :| n in GraphOf(defs).at && GraphOf(defs).at[n].dependsOn.None?;
        var i := FinalDefinition(defs, n);
        ExplicitNode(defs, i);
      }
      if i: nat :| IsFinal(defs, i) && defs[i].dependsOn.None? {
        ExplicitNode(defs, i);
      }
    } else {
      InferredDependenciesAreKnown(defs);
    }
  }

  /** Whatever the template, every node of its graph carries a definition of the template. */
  lemma GraphCarriesTemplate(defs: seq<StageDef>)
    ensures CarriesDefinitions(GraphOf(defs), defs)
  {
    if NamesDependencies(defs) {
      ExplicitCarries(defs);
    } else {
      GroupsCarry(defs, Orders(defs), |Orders(defs)|);
    }
  }

  // ---------------------------------------------------------------- what the linear groups are

  /** A stage's place in linear mode: the order of the last definition of its name, else its position; 999 for others. */
  lemma {:induction false} LinearOrderExactly(defs: seq<StageDef>, n: string)
    ensures (forall sd :: sd in defs ==> sd.name != n) ==> LinearOrder(OrderMap(defs), n) == 999
    ensures forall i: nat :: IsFinal(defs, i) && defs[i].name == n ==>
              LinearOrder(OrderMap(defs), n) == if defs[i].order.Some? then defs[i].order.value else i
  {
    if defs == [] {
      return;
    }
    var init, last := defs[..|defs| - 1], |defs| - 1;
    LinearOrderStep(defs, n);
    assert defs[last] in defs && forall sd :: sd in init ==> sd in defs;
    LinearOrderExactly(init, n);
    hide LinearOrder, OrderMap;
    forall i: nat | IsFinal(defs, i) && defs[i].name == n
      ensures LinearOrder(OrderMap(defs), n) == if defs[i].order.Some? then defs[i].order.value else i
    {
      if i < last {
        FinalInFront(defs, i);
      }
    }
  }

  lemma LinearOrderStep(defs: seq<StageDef>, n: string)
    requires defs != []
    ensures var last := |defs| - 1;
            LinearOrder(OrderMap(defs), n) ==
            if defs[last].name != n then LinearOrder(OrderMap(defs[..last]), n)
            else if defs[last].order.Some? then defs[last].order.value else last
  {
  }

  lemma FinalInFront(defs: seq<StageDef>, i: nat)
    requires IsFinal(defs, i) && i < |defs| - 1
    ensures IsFinal(defs[..|defs| - 1], i) && defs[..|defs| - 1][i] == defs[i] && defs[|defs| - 1].name != defs[i].name
  {
    assert forall j :: i < j < |defs| - 1 ==> defs[..|defs| - 1][j] == defs[j];
  }

  /** Every stage stands in a group, and groups are in ascending order: an earlier group has exactly the smaller orders. */
  lemma GroupsOrderStages(stages: seq<string>, orders: map<string, int>, a: string, b: string) returns (i: nat, j: nat)
    requires a in stages && b in stages
    ensures i < |LinearKeys(stages, orders)| && a in StagesAt(stages, orders, LinearKeys(stages, orders)[i])
    ensures j < |LinearKeys(stages, orders)| && b in StagesAt(stages, orders, LinearKeys(stages, orders)[j])
    ensures i < j <==> LinearOrder(orders, a) < LinearOrder(orders, b)
    ensures forall k :: 0 <= k < |LinearKeys(stages, orders)| && a in StagesAt(stages, orders, LinearKeys(stages, orders)[k]) ==> k == i
  {
    var ks := LinearKeys(stages, orders);
    i := GroupOfStage(stages, orders, a);
    j := GroupOfStage(stages, orders, b);
    assert StrictlyIncreasing(ks);
    hide LinearKeys, LinearOrder;
  }

  lemma GroupOfStage(stages: seq<string>, orders: map<string, int>, s: string) returns (i: nat)
    requires s in stages
    ensures i < |LinearKeys(stages, orders)| && LinearKeys(stages, orders)[i] == LinearOrder(orders, s)
  {
    var used := set x | x in stages :: LinearOrder(orders, x);
    assert LinearOrder(orders, s) in used;
    var ks := LinearKeys(stages, orders);
    assert LinearOrder(orders, s) in ks;
    i :| 0 <= i < |ks| && ks[i] == LinearOrder(orders, s);
  }

  /** Within a group the stages keep their order. */
  lemma {:induction false} GroupsKeepOrder(a: seq<string>, b: seq<string>, orders: map<string, int>, k: int)
    ensures StagesAt(a + b, orders, k) == StagesAt(a, orders, k) + StagesAt(b, orders, k)
  {
    hide *;
    if b == [] {
      NoStagesNoGroup(orders, k);
      assert a + b == a;
    } else {
      var init, last := b[..|b| - 1], b[|b| - 1];
      GroupsKeepOrder(a, init, orders, k);
      assert a + b == (a + init) + [last] && b == init + [last];
      StagesAtAppend(a + init, last, orders, k);
      StagesAtAppend(init, last, orders, k);
    }
  }

  lemma NoStagesNoGroup(orders: map<string, int>, k: int)
    ensures StagesAt([], orders, k) == []
  {
  }
}
