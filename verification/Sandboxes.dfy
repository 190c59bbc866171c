/** BoxLite sandboxes: a pool of permits, the boxes that hold them, and the manager's cache of per-role boxes. */
module Sandboxes {
  import opened Prelude

  type Box = nat

  /** How starting a micro-VM goes. A cancelled start is not caught by the backend's exception handler. */
  datatype StartOutcome =
    | WorkspaceMissing
    | StartRaises
    | Unhealthy
    | Cancelled
    | Started(box: Box)

  /** What a call answers; Waiting is a call that still waits for a permit. */
  datatype CreateResult = Created(box: Box) | CreateFailed(code: string) | Interrupted | Waiting | Nothing

  function Key(role: string, taskId: string): string {
    role + ":" + taskId
  }

  function RoleTag(role: Option<string>): string {
    if role.Some? && role.value != "" then role.value else "default"
  }

  /** `lost` counts permits that no box in the dictionary holds any more. */
  datatype Pool = Pool(free: nat, boxes: map<string, Box>, cache: map<string, Box>, lost: nat)

  datatype Call =
    | CreateForTask(taskId: string, outcome: StartOutcome)
    | GetOrCreateForRole(taskId: string, role: string, outcome: StartOutcome)
    | Destroy(taskId: string)
    | DestroyRoles(taskId: string)
    | DestroyAll

  function CreateIn(s: Pool, key: string, outcome: StartOutcome): (Pool, CreateResult) {
    if outcome.WorkspaceMissing? then (s, CreateFailed("workspace_not_found"))
    else if s.free == 0 then (s, Waiting)
    else
      match outcome
      case StartRaises => (s, CreateFailed("box_create_failed"))
      case Unhealthy => (s, CreateFailed("box_unhealthy"))
      case Cancelled => (s.(free := s.free - 1, lost := s.lost + 1), Interrupted)
      case Started(box) =>
        (s.(free := s.free - 1, boxes := s.boxes[key := box], lost := s.lost + if key in s.boxes then 1 else 0), Created(box))
  }

  /** The keys a task's clean-up removes: its composite keys by suffix, and a plain key. */
  function TaskKeys(keys: set<string>, taskId: string): set<string> {
    set k | k in keys && (EndsWith(k, ":" + taskId) || k == taskId)
  }

  function Release(s: Pool, keys: set<string>): Pool {
    s.(free := s.free + |keys|, boxes := s.boxes - keys)
  }

  function Step(s: Pool, c: Call): (Pool, CreateResult) {
    match c
    case CreateForTask(taskId, outcome) => CreateIn(s, Key("default", taskId), outcome)
    case GetOrCreateForRole(taskId, role, outcome) =>
      var k := Key(role, taskId);
      if k in s.cache then (s, Created(s.cache[k])) else
        var (t, r) := CreateIn(s, Key(RoleTag(Some(role)), taskId), outcome);
        (if r.Created? then t.(cache := t.cache[k := r.box]) else t, r)
    case Destroy(taskId) => (Release(s, TaskKeys(s.boxes.Keys, taskId)), Nothing)
    case DestroyRoles(taskId) =>
      (Release(s.(cache := map k | k in s.cache && !EndsWith(k, ":" + taskId) :: s.cache[k]), TaskKeys(s.boxes.Keys, taskId)),
       Nothing)
    case DestroyAll => (Release(s.(cache := map[]), s.boxes.Keys), Nothing)
  }

  function Run(s: Pool, calls: seq<Call>): Pool {
    if calls == [] then s else Step(Run(s, calls[..|calls| - 1]), Last(calls)).0
  }

  function FreshPool(limit: nat): Pool {
    Pool(limit, map[], map[], 0)
  }

  // ---------------------------------------------------------------- backend and manager

  class BoxLiteSandboxBackend {
    var free: nat
    var boxes: map<string, Box>
    ghost var lost: nat

    constructor (limit: nat)
      ensures free == limit && boxes == map[] && lost == 0
    {
      free, boxes, lost := limit, map[], 0;
    }

    ghost function View(cache: map<string, Box>): Pool
      reads this
    {
      Pool(free, boxes, cache, lost)
    }

    method Create(taskId: string, role: Option<string>, outcome: StartOutcome) returns (r: CreateResult)
      modifies this
      ensures forall cache :: (View(cache), r) == CreateIn(old(View(cache)), Key(RoleTag(role), taskId), outcome)
    {
      if outcome.WorkspaceMissing? {
        return CreateFailed("workspace_not_found");
      }
      if free == 0 {
        return Waiting;
      }
      free := free - 1;
      match outcome {
        case StartRaises =>
          free := free + 1;
          return CreateFailed("box_create_failed");
        case Unhealthy =>
          free := free + 1;
          return CreateFailed("box_unhealthy");
        case Cancelled =>
          lost := lost + 1;
          return Interrupted;
        case Started(box) =>
          var key := Key(RoleTag(role), taskId);
          lost := lost + if key in boxes then 1 else 0;
          boxes := boxes[key := box];
          return Created(box);
      }
    }

    method DestroyByKey(key: string)
      modifies this
      ensures lost == old(lost)
      ensures boxes == old(boxes) - {key}
      ensures free == old(free) + if key in old(boxes) then 1 else 0
    {
      if key in boxes {
        boxes := boxes - {key};
        free := free + 1;
      }
    }

    method DestroyKeys(keys: set<string>)
      requires keys <= boxes.Keys
      modifies this
      ensures forall cache :: View(cache) == Release(old(View(cache)), keys)
    {
      var rest := keys;
      while rest != {}
        invariant rest <= keys
        invariant boxes == old(boxes) - (keys - rest)
        invariant free + |rest| == old(free) + |keys| && lost == old(lost)
        decreases rest
      {
        var k :| k in rest;
        DestroyByKey(k);
        assert keys - (rest - {k}) == (keys - rest) + {k};
        rest := rest - {k};
      }
    }

    method DestroyTask(taskId: string)
      modifies this
      ensures forall cache :: View(cache) == Release(old(View(cache)), TaskKeys(old(boxes).Keys, taskId))
    {
      DestroyKeys(TaskKeys(boxes.Keys, taskId));
    }

    method DestroyEverything()
      modifies this
      ensures forall cache :: View(cache) == Release(old(View(cache)), old(boxes).Keys)
    {
      DestroyKeys(boxes.Keys);
    }
  }

  class SandboxManager {
    const backend: BoxLiteSandboxBackend
    var roleSandboxes: map<string, Box>

    constructor (backend: BoxLiteSandboxBackend)
      ensures this.backend == backend && roleSandboxes == map[]
    {
      this.backend := backend;
      roleSandboxes := map[];
    }

    ghost function State(): Pool
      reads this, backend
    {
      backend.View(roleSandboxes)
    }

    method Create(taskId: string, outcome: StartOutcome) returns (r: CreateResult)
      modifies this, backend
      ensures (State(), r) == Step(old(State()), CreateForTask(taskId, outcome))
    {
      r := backend.Create(taskId, None, outcome);
    }

    method GetOrCreateRoleSandbox(taskId: string, role: string, outcome: StartOutcome) returns (r: CreateResult)
      modifies this, backend
      ensures (State(), r) == Step(old(State()), GetOrCreateForRole(taskId, role, outcome))
    {
      var cacheKey := Key(role, taskId);
      if cacheKey in roleSandboxes {
        return Created(roleSandboxes[cacheKey]);
      }
      r := backend.Create(taskId, Some(role), outcome);
      assert backend.View(roleSandboxes) == CreateIn(old(State()), Key(RoleTag(Some(role)), taskId), outcome).0;
      if r.Created? {
        roleSandboxes := roleSandboxes[cacheKey := r.box];
      }
    }

    method DestroyTask(taskId: string)
      modifies this, backend
      ensures State() == Step(old(State()), Destroy(taskId)).0
    {
      backend.DestroyTask(taskId);
    }

    method DestroyRoleSandboxes(taskId: string)
      modifies this, backend
      ensures State() == Step(old(State()), DestroyRoles(taskId)).0
    {
      var rest := roleSandboxes.Keys;
      while rest != {}
        invariant rest <= old(roleSandboxes).Keys
        invariant roleSandboxes == map k | k in old(roleSandboxes) && (k in rest || !EndsWith(k, ":" + taskId)) :: old(roleSandboxes)[k]
        decreases rest
        modifies `roleSandboxes
      {
        var k :| k in rest;
        if EndsWith(k, ":" + taskId) {
          roleSandboxes := roleSandboxes - {k};
        }
        rest := rest - {k};
      }
      backend.DestroyTask(taskId);
    }

    method DestroyEverything()
      modifies this, backend
      ensures State() == Step(old(State()), DestroyAll).0
    {
      roleSandboxes := map[];
      backend.DestroyEverything();
    }
  }

  // ---------------------------------------------------------------- permits are conserved

  /** A start that leaves a permit with no box: it overwrites a live box, or it is cancelled under way. */
  predicate LosesPermit(s: Pool, c: Call) {
    match c
    case CreateForTask(taskId, outcome) =>
      s.free > 0 && (outcome.Cancelled? || (outcome.Started? && Key("default", taskId) in s.boxes))
    case GetOrCreateForRole(taskId, role, outcome) =>
      s.free > 0 && Key(role, taskId) !in s.cache &&
      (outcome.Cancelled? || (outcome.Started? && Key(RoleTag(Some(role)), taskId) in s.boxes))
    case _ => false
  }

  ghost predicate Accounted(s: Pool, limit: nat) {
    s.free + |s.boxes| + s.lost == limit
  }

  lemma AddBox(boxes: map<string, Box>, key: string, box: Box)
    ensures |boxes[key := box]| == |boxes| + if key in boxes then 0 else 1
  {
    assert boxes[key := box].Keys == boxes.Keys + {key};
  }

  lemma CreateAccounts(s: Pool, key: string, outcome: StartOutcome, limit: nat)
    requires Accounted(s, limit)
    ensures var t := CreateIn(s, key, outcome).0;
            && t.free + |t.boxes| + t.lost == limit && t.cache == s.cache
            && t.lost == s.lost + if s.free > 0 && (outcome.Cancelled? || (outcome.Started? && key in s.boxes)) then 1 else 0
  {
    if outcome.Started? {
      AddBox(s.boxes, key, outcome.box);
    }
  }

  lemma ReleaseAccounts(s: Pool, keys: set<string>, limit: nat)
    requires Accounted(s, limit) && keys <= s.boxes.Keys
    ensures Accounted(Release(s, keys), limit)
  {
    assert (s.boxes - keys).Keys == s.boxes.Keys - keys;
  }

  lemma StepAccounts(s: Pool, c: Call, limit: nat)
    requires Accounted(s, limit)
    ensures Accounted(Step(s, c).0, limit)
    ensures Step(s, c).0.lost == s.lost + if LosesPermit(s, c) then 1 else 0
  {
    match c
    case CreateForTask(taskId, outcome) => CreateAccounts(s, Key("default", taskId), outcome, limit);
    case GetOrCreateForRole(taskId, role, outcome) => CreateAccounts(s, Key(RoleTag(Some(role)), taskId), outcome, limit);
    case Destroy(taskId) => ReleaseAccounts(s, TaskKeys(s.boxes.Keys, taskId), limit);
    case DestroyRoles(taskId) =>
      ReleaseAccounts(s.(cache := map k | k in s.cache && !EndsWith(k, ":" + taskId) :: s.cache[k]),
                      TaskKeys(s.boxes.Keys, taskId), limit);
    case DestroyAll => ReleaseAccounts(s.(cache := map[]), s.boxes.Keys, limit);
  }

  predicate NothingLost(s: Pool, calls: seq<Call>) {
    calls != [] ==>
      NothingLost(s, calls[..|calls| - 1]) && !LosesPermit(Run(s, calls[..|calls| - 1]), Last(calls))
  }

  /** Free permits plus live boxes equals the limit exactly in the runs in which no start loses its permit. */
  lemma {:induction false} ConservationExactly(limit: nat, calls: seq<Call>)
    ensures var s := Run(FreshPool(limit), calls);
            Accounted(s, limit) && (s.free + |s.boxes| == limit <==> NothingLost(FreshPool(limit), calls))
  {
    if calls != [] {
      var before := calls[..|calls| - 1];
      ConservationExactly(limit, before);
      StepAccounts(Run(FreshPool(limit), before), Last(calls), limit);
    }
  }

  // ---------------------------------------------------------------- disciplined callers lose nothing

  predicate ColonFree(s: string) {
    ':' !in s
  }

  /** Role names as configured: not empty, without a colon, and none called "default". */
  predicate ProperRole(role: string) {
    role != "" && role != "default" && ColonFree(role)
  }

  ghost predicate IsTaskKey(k: string) {
    exists t :: k == Key("default", t)
  }

  /** No start is cancelled, roles are proper, and a task-level box is created only when the task has none. */
  predicate Disciplined(s: Pool, c: Call) {
    match c
    case CreateForTask(taskId, outcome) => !outcome.Cancelled? && Key("default", taskId) !in s.boxes
    case GetOrCreateForRole(_, role, outcome) => !outcome.Cancelled? && ProperRole(role)
    case _ => true
  }

  predicate DisciplinedRun(s: Pool, calls: seq<Call>) {
    calls != [] ==>
      DisciplinedRun(s, calls[..|calls| - 1]) && Disciplined(Run(s, calls[..|calls| - 1]), Last(calls))
  }

  /** Every box that is not task-level is in the manager's cache. */
  ghost predicate RoleBoxesAreCached(s: Pool) {
    forall k :: k in s.boxes && !IsTaskKey(k) ==> k in s.cache
  }

  function FirstColon(s: string): nat {
    if s == "" || s[0] == ':' then 0 else 1 + FirstColon(s[1..])
  }

  function LastColon(s: string): int {
    if s == "" then -1 else if Last(s) == ':' then |s| - 1 else LastColon(s[..|s| - 1])
  }

  lemma {:induction false} FirstColonOfKey(a: string, x: string)
    requires ColonFree(a)
    ensures FirstColon(Key(a, x)) == |a|
  {
    if a != "" {
      assert a[0] in a && forall c :: c in a[1..] ==> c in a;
      assert Key(a, x)[1..] == Key(a[1..], x);
      FirstColonOfKey(a[1..], x);
    }
  }

  lemma {:induction false} LastColonOfKey(p: string, t: string)
    requires ColonFree(t)
    ensures LastColon(Key(p, t)) == |p|
  {
    if t != "" {
      assert Last(t) in t && forall c :: c in t[..|t| - 1] ==> c in t;
      assert Key(p, t)[..|Key(p, t)| - 1] == Key(p, t[..|t| - 1]);
      LastColonOfKey(p, t[..|t| - 1]);
    }
  }

  lemma ColonSplitsOnce(a: string, x: string, b: string, y: string)
    requires ColonFree(a) && ColonFree(b) && Key(a, x) == Key(b, y)
    ensures a == b && x == y
  {
    FirstColonOfKey(a, x);
    FirstColonOfKey(b, y);
    assert Key(a, x)[..|a|] == a && Key(b, y)[..|b|] == b;
    assert Key(a, x)[|a| + 1..] == x && Key(b, y)[|b| + 1..] == y;
  }

  lemma ProperRoleKeys(role: string, taskId: string)
    requires ProperRole(role)
    ensures !IsTaskKey(Key(role, taskId)) && RoleTag(Some(role)) == role
  {
    if t :| Key(role, taskId) == Key("default", t) {
      ColonSplitsOnce(role, taskId, "default", t);
    }
  }

  lemma StepKeepsCached(s: Pool, c: Call)
    requires RoleBoxesAreCached(s) && Disciplined(s, c)
    ensures RoleBoxesAreCached(Step(s, c).0) && !LosesPermit(s, c)
  {
    match c
    case CreateForTask(taskId, outcome) =>
      assert IsTaskKey(Key("default", taskId));
    case GetOrCreateForRole(taskId, role, outcome) =>
      ProperRoleKeys(role, taskId);
    case DestroyRoles(taskId) =>
      assert forall k :: k in s.boxes && EndsWith(k, ":" + taskId) ==> k in TaskKeys(s.boxes.Keys, taskId);
    case _ =>
  }

  /** Disciplined callers never overwrite a live box: permits are conserved in every such run. */
  lemma {:induction false} DisciplineConserves(limit: nat, calls: seq<Call>)
    requires DisciplinedRun(FreshPool(limit), calls)
    ensures var s := Run(FreshPool(limit), calls);
            RoleBoxesAreCached(s) && NothingLost(FreshPool(limit), calls) && s.free + |s.boxes| == limit
  {
    if calls != [] {
      DisciplineConserves(limit, calls[..|calls| - 1]);
      StepKeepsCached(Run(FreshPool(limit), calls[..|calls| - 1]), Last(calls));
    }
    ConservationExactly(limit, calls);
  }

  // ---------------------------------------------------------------- cache and boxes in step

  /** Every cached sandbox is a live box. */
  ghost predicate CacheIsLive(s: Pool) {
    forall k :: k in s.cache ==> k in s.boxes && s.boxes[k] == s.cache[k]
  }

  /**
   * Under disciplined calls only the task-level `destroy` can leave dead sandboxes in the cache, and it does
   * so exactly when a role of the task is cached.
   */
  lemma CacheGoesStaleExactly(s: Pool, c: Call)
    requires CacheIsLive(s) && RoleBoxesAreCached(s) && Disciplined(s, c)
    requires forall k :: k in s.cache ==> !IsTaskKey(k)
    requires !c.DestroyRoles? || forall k :: k in s.cache ==> k != c.taskId
    ensures CacheIsLive(Step(s, c).0) <==> !(c.Destroy? && TaskKeys(s.cache.Keys, c.taskId) != {})
    ensures c.GetOrCreateForRole? && Step(s, c).1.Created? ==>
              Key(c.role, c.taskId) in Step(s, c).0.boxes && Step(s, c).0.boxes[Key(c.role, c.taskId)] == Step(s, c).1.box
  {
    match c
    case CreateForTask(taskId, outcome) =>
      assert IsTaskKey(Key("default", taskId));
    case GetOrCreateForRole(taskId, role, outcome) =>
      ProperRoleKeys(role, taskId);
    case Destroy(taskId) =>
      var stale := TaskKeys(s.cache.Keys, taskId);
      if stale != {} {
        var k :| k in stale;
        assert k in TaskKeys(s.boxes.Keys, taskId);
      } else {
        assert forall k :: k in s.cache ==> k !in stale;
      }
    case _ =>
  }

  /** Cached keys are composite keys of proper roles. */
  ghost predicate CachesRoles(s: Pool) {
    forall k :: k in s.cache ==> !IsTaskKey(k) && ':' in k
  }

  /** Without the task-level `destroy`, every cached sandbox is a live box at every point of the run. */
  lemma {:induction false} CacheStaysLive(limit: nat, calls: seq<Call>)
    requires DisciplinedRun(FreshPool(limit), calls)
    requires forall c :: c in calls ==> !c.Destroy? && (c.DestroyRoles? ==> ColonFree(c.taskId))
    ensures CacheIsLive(Run(FreshPool(limit), calls)) && CachesRoles(Run(FreshPool(limit), calls))
  {
    if calls != [] {
      var before, c := calls[..|calls| - 1], Last(calls);
      assert c in calls && forall x :: x in before ==> x in calls;
      CacheStaysLive(limit, before);
      DisciplineConserves(limit, before);
      LastCall(FreshPool(limit), calls);
      hide *;
      StepKeepsRolesCached(Run(FreshPool(limit), before), c);
    }
  }

  lemma LastCall(s: Pool, calls: seq<Call>)
    requires calls != [] && DisciplinedRun(s, calls)
    ensures Run(s, calls) == Step(Run(s, calls[..|calls| - 1]), Last(calls)).0
    ensures DisciplinedRun(s, calls[..|calls| - 1]) && Disciplined(Run(s, calls[..|calls| - 1]), Last(calls))
  {
  }

  lemma StepKeepsRolesCached(s: Pool, c: Call)
    requires CacheIsLive(s) && CachesRoles(s) && RoleBoxesAreCached(s) && Disciplined(s, c)
    requires !c.Destroy? && (c.DestroyRoles? ==> ColonFree(c.taskId))
    ensures CacheIsLive(Step(s, c).0) && CachesRoles(Step(s, c).0)
  {
    CacheGoesStaleExactly(s, c);
    if c.GetOrCreateForRole? {
      ProperRoleKeys(c.role, c.taskId);
      assert Key(c.role, c.taskId)[|c.role|] == ':';
    }
  }

  /** With colon-free task ids the suffix test removes a task's own boxes and no others. */
  lemma SuffixIsTheTask(role: string, taskId: string, other: string)
    requires ColonFree(taskId) && ColonFree(other)
    ensures Key(role, other) in TaskKeys({Key(role, other)}, taskId) <==> other == taskId
  {
    var k, suffix := Key(role, other), ":" + taskId;
    assert k[|role|] == ':' && k[|role| + 1..] == other;
    LastColonOfKey(role, other);
    if EndsWith(k, suffix) {
      var p := k[..|k| - |suffix|];
      assert k == Key(p, taskId);
      LastColonOfKey(p, taskId);
    }
    if other == taskId {
      assert k[|k| - |suffix|..] == suffix;
    }
  }

  // ---------------------------------------------------------------- what creating and destroying come to

  /**
   * A start with a free permit: a box that comes up is live under its key with one permit less, a failing start
   * leaves everything as it was, a cancelled one costs the permit. Without a permit the call waits.
   */
  lemma CreatingExactly(s: Pool, key: string, outcome: StartOutcome)
    ensures var (t, r) := CreateIn(s, key, outcome);
            && t.cache == s.cache
            && (outcome.WorkspaceMissing? ==> t == s && r == CreateFailed("workspace_not_found"))
            && (!outcome.WorkspaceMissing? && s.free == 0 ==> t == s && r == Waiting)
            && (s.free > 0 && outcome.StartRaises? ==> t == s && r == CreateFailed("box_create_failed"))
            && (s.free > 0 && outcome.Unhealthy? ==> t == s && r == CreateFailed("box_unhealthy"))
            && (s.free > 0 && outcome.Cancelled? ==> t.free == s.free - 1 && t.boxes == s.boxes && r == Interrupted)
            && (s.free > 0 && outcome.Started? ==>
                  && t.free == s.free - 1 && r == Created(outcome.box)
                  && key in t.boxes && t.boxes[key] == outcome.box
                  && forall k :: k != key ==> (k in t.boxes <==> k in s.boxes) && (k in s.boxes ==> t.boxes[k] == s.boxes[k]))
  {
  }

  /** The manager's two ways to a sandbox: under which key the box lives, and what the cache answers. */
  lemma ManagerCreatesExactly(s: Pool, taskId: string, role: string, outcome: StartOutcome)
    requires role != ""
    ensures Step(s, CreateForTask(taskId, outcome)) == CreateIn(s, "default" + ":" + taskId, outcome)
    ensures var k := role + ":" + taskId;
            var (t, r) := Step(s, GetOrCreateForRole(taskId, role, outcome));
            && (k in s.cache ==> t == s && r == Created(s.cache[k]))
            && (k !in s.cache ==>
                  && r == CreateIn(s, k, outcome).1
                  && t.free == CreateIn(s, k, outcome).0.free && t.boxes == CreateIn(s, k, outcome).0.boxes
                  && (forall x :: x != k ==> (x in t.cache <==> x in s.cache) && (x in s.cache ==> t.cache[x] == s.cache[x]))
                  && (if r.Created? then k in t.cache && t.cache[k] == r.box else k !in t.cache))
  {
    hide CreateIn;
    assert CreateIn(s, role + ":" + taskId, outcome).0.cache == s.cache by { CreatingExactly(s, role + ":" + taskId, outcome); }
  }

  /** A composite key belongs to the task after its last colon, a plain key to itself. */
  ghost predicate BelongsTo(k: string, taskId: string) {
    k == taskId || exists role :: k == role + ":" + taskId
  }

  lemma TaskKeysAreOwn(keys: set<string>, taskId: string)
    ensures forall k :: k in TaskKeys(keys, taskId) <==> k in keys && BelongsTo(k, taskId)
  {
    forall k ensures EndsWith(k, ":" + taskId) <==> exists role :: k == role + ":" + taskId {
      EndsAsComposite(k, taskId);
    }
  }

  lemma EndsAsComposite(k: string, taskId: string)
    ensures EndsWith(k, ":" + taskId) <==> exists role :: k == role + ":" + taskId
  {
    if EndsWith(k, ":" + taskId) {
      var role := RoleBefore(k, taskId);
    }
    if role :| k == role + ":" + taskId {
      CompositeEnds(role, taskId);
    }
    hide EndsWith;
  }

  lemma RoleBefore(k: string, taskId: string) returns (role: string)
    requires EndsWith(k, ":" + taskId)
    ensures k == role + ":" + taskId
  {
    role := k[..|k| - |taskId| - 1];
    assert k == role + (":" + taskId);
  }

  lemma CompositeEnds(role: string, taskId: string)
    ensures EndsWith(role + ":" + taskId, ":" + taskId)
  {
    assert role + ":" + taskId == role + (":" + taskId);
  }

  lemma Removed(boxes: map<string, Box>, keys: set<string>)
    requires keys <= boxes.Keys
    ensures |boxes| == |boxes - keys| + |keys|
  {
    assert (boxes - keys).Keys == boxes.Keys - keys;
  }

  /** Destroying a task: no box of it is left, all others are untouched, and each removed box returns one permit. */
  lemma DestroyExactly(s: Pool, taskId: string)
    ensures var t := Step(s, Destroy(taskId)).0;
            && (forall k :: k in t.boxes <==> k in s.boxes && !BelongsTo(k, taskId))
            && (forall k :: k in t.boxes ==> t.boxes[k] == s.boxes[k])
            && t.free + |t.boxes| == s.free + |s.boxes|
            && t.cache == s.cache && t.lost == s.lost
  {
    TaskKeysAreOwn(s.boxes.Keys, taskId);
    Removed(s.boxes, TaskKeys(s.boxes.Keys, taskId));
    hide TaskKeys, BelongsTo;
  }

  /** Destroying the roles of a task does the same and empties the cache of the task's roles, and of nothing else. */
  lemma DestroyRolesExactly(s: Pool, taskId: string)
    ensures var t := Step(s, DestroyRoles(taskId)).0;
            && (forall k :: k in t.boxes <==> k in s.boxes && !BelongsTo(k, taskId))
            && (forall k :: k in t.boxes ==> t.boxes[k] == s.boxes[k])
            && t.free + |t.boxes| == s.free + |s.boxes|
            && (forall k :: k in t.cache <==> k in s.cache && !exists role :: k == role + ":" + taskId)
            && (forall k :: k in t.cache ==> t.cache[k] == s.cache[k])
            && t.lost == s.lost
  {
    TaskKeysAreOwn(s.boxes.Keys, taskId);
    Removed(s.boxes, TaskKeys(s.boxes.Keys, taskId));
    forall k ensures EndsWith(k, ":" + taskId) <==> exists role :: k == role + ":" + taskId {
      EndsAsComposite(k, taskId);
    }
    hide TaskKeys, BelongsTo, EndsWith;
  }

  /** With colon-free task ids a box of one task belongs to no other. */
  lemma TasksDoNotShareBoxes(role: string, taskId: string, other: string)
    requires ColonFree(taskId) && ColonFree(other)
    ensures BelongsTo(Key(role, other), taskId) <==> other == taskId
  {
    TaskKeysAreOwn({Key(role, other)}, taskId);
    SuffixIsTheTask(role, taskId, other);
  }

  lemma DestroyAllExactly(s: Pool)
    ensures var t := Step(s, DestroyAll).0;
            t.boxes == map[] && t.cache == map[] && t.free == s.free + |s.boxes| && t.lost == s.lost
  {
  }

  /** In every run that lost no permit, destroying everything gives back the fresh pool. */
  lemma DestroyAllRestoresPool(limit: nat, calls: seq<Call>)
    requires NothingLost(FreshPool(limit), calls)
    ensures Run(FreshPool(limit), calls + [DestroyAll]) == FreshPool(limit)
  {
    var s := Run(FreshPool(limit), calls);
    ConservationExactly(limit, calls);
    DestroyAllExactly(s);
    assert (calls + [DestroyAll])[..|calls|] == calls;
    hide Step;
  }
}
