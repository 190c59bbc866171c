/**
 * What the log pipeline makes of the operations it accepts: none is lost or doubled, when they take effect in the
 * order of acceptance, and which changes of that order matter.
 */
module LogOrder {
  import opened Prelude
  import opened TaskLogPipeline

  // ---------------------------------------------------------------- every accepted operation has one place

  function BatchOf(w: Worker): seq<LogOp> {
    if w.Idle? then [] else w.batch
  }

  function OpsOf(finished: seq<Batch>): seq<LogOp> {
    if finished == [] then [] else OpsOf(finished[..|finished| - 1]) + Last(finished).ops
  }

  function CommittedOps(finished: seq<Batch>): seq<LogOp> {
    if finished == [] then [] else
      CommittedOps(finished[..|finished| - 1]) + if Last(finished).committed then Last(finished).ops else []
  }

  /** `ops` are the accepted operations at the given places. */
  ghost predicate Picked(accepted: seq<LogOp>, places: seq<nat>, ops: seq<LogOp>) {
    |places| == |ops| && forall i :: 0 <= i < |places| ==> places[i] < |accepted| && ops[i] == accepted[places[i]]
  }

  ghost predicate Rising(places: seq<nat>) {
    forall i, j :: 0 <= i < j < |places| ==> places[i] < places[j]
  }

  /** The places up to `taken` are shared out: each is finished once, or held by one worker. */
  ghost predicate SharedOut(taken: nat, held: seq<seq<nat>>, placed: seq<nat>) {
    && Distinct(placed)
    && (forall p: nat :: p in placed ==> p < taken)
    && (forall w :: 0 <= w < |held| ==> Rising(held[w]))
    && (forall w, p: nat :: 0 <= w < |held| && p in held[w] ==> p < taken)
    && (forall w, p: nat :: 0 <= w < |held| && p in held[w] ==> p !in placed)
    && (forall v, w, p: nat :: 0 <= v < |held| && 0 <= w < |held| && p in held[v] && p in held[w] ==> v == w)
    && (forall p: nat :: p < taken ==> p in placed || exists w :: 0 <= w < |held| && p in held[w])
  }

  ghost predicate WorkersFiled(accepted: seq<LogOp>, held: seq<seq<nat>>, workers: seq<Worker>) {
    && |held| == |workers|
    && forall w :: 0 <= w < |workers| ==> Picked(accepted, held[w], BatchOf(workers[w]))
  }

  lemma OneWorkerFiled(accepted: seq<LogOp>, held: seq<seq<nat>>, workers: seq<Worker>, w: nat, places: seq<nat>, now: Worker)
    requires WorkersFiled(accepted, held, workers) && w < |workers| && Picked(accepted, places, BatchOf(now))
    ensures WorkersFiled(accepted, Hold(held, w, places), workers[w := now])
  {
    hide Picked;
  }

  /** What is queued, held and finished are the accepted operations at their places. */
  ghost predicate Filed(s: Pipe) {
    && |s.queue| <= |s.accepted| && s.queue == s.accepted[s.Taken()..]
    && WorkersFiled(s.accepted, s.held, s.workers)
    && Picked(s.accepted, s.placed, OpsOf(s.finished))
  }

  /** The table holds what writing the committed batches directly gives. */
  ghost predicate WritesCommitted(s: Pipe) {
    s.table == ApplyAll(s.base, CommittedOps(s.finished))
  }

  /** The account of a process: every accepted operation is queued, in flight or finished, and is so once. */
  ghost predicate Account(s: Pipe) {
    && Filed(s)
    && SharedOut(s.Taken(), s.held, s.placed)
    && WritesCommitted(s)
    && (s.running ==> s.workers != [])
  }

  lemma TakingSharesOut(taken: nat, held: seq<seq<nat>>, placed: seq<nat>, w: nat, n: nat)
    requires SharedOut(taken, held, placed) && w < |held|
    ensures SharedOut(taken + n, Hold(held, w, held[w] + Span(taken, n)), placed)
  {
    var more, next := held[w] + Span(taken, n), Hold(held, w, held[w] + Span(taken, n));
    assert forall v :: 0 <= v < |next| ==> next[v] == if v == w then more else held[v];
    forall p: nat ensures p in more <==> p in held[w] || taken <= p < taken + n {
      if taken <= p < taken + n { assert Span(taken, n)[p - taken] == p; }
    }
    RisingFurther(held[w], taken, n);
    forall p: nat | p < taken + n && p !in placed ensures exists v :: 0 <= v < |next| && p in next[v] {
      if p < taken {
        var v :| 0 <= v < |held| && p in held[v];
        assert p in next[v];
      } else {
        assert p in next[w];
      }
    }
  }

  lemma RisingFurther(places: seq<nat>, taken: nat, n: nat)
    requires Rising(places) && forall p: nat :: p in places ==> p < taken
    ensures Rising(places + Span(taken, n))
  {
    var more := places + Span(taken, n);
    forall i, j | 0 <= i < j < |more| ensures more[i] < more[j] {
      if i < |places| { assert more[i] in places; }
    }
  }

  lemma FinishingSharesOut(taken: nat, held: seq<seq<nat>>, placed: seq<nat>, w: nat)
    requires SharedOut(taken, held, placed) && w < |held|
    ensures SharedOut(taken, Hold(held, w, []), placed + held[w])
  {
    var next, done := Hold(held, w, []), placed + held[w];
    assert forall p: nat :: p in done <==> p in placed || p in held[w];
    DistinctTogether(placed, held[w]);
    forall p: nat | p < taken && p !in done ensures exists v :: 0 <= v < |next| && p in next[v] {
      var v :| 0 <= v < |held| && p in held[v];
      assert v != w && p in next[v];
    }
  }

  lemma DistinctTogether(a: seq<nat>, b: seq<nat>)
    requires Distinct(a) && Rising(b) && forall p: nat :: p in b ==> p !in a
    ensures Distinct(a + b)
  {
    var c := a + b;
    forall i, j | 0 <= i < j < |c| ensures c[i] != c[j] {
      if i < |a| <= j { assert c[j] in b && c[i] in a; }
    }
  }

  lemma LeavingSharesOut(taken: nat, held: seq<seq<nat>>, placed: seq<nat>, w: nat)
    requires SharedOut(taken, held, placed) && w < |held| && held[w] == []
    ensures SharedOut(taken, Leave(held, w), placed)
  {
    var next := Leave(held, w);
    assert forall v :: 0 <= v < |next| ==> next[v] == held[if v < w then v else v + 1];
    forall p: nat | p < taken && p !in placed ensures exists v :: 0 <= v < |next| && p in next[v] {
      var v :| 0 <= v < |held| && p in held[v];
      assert p in next[if v < w then v else v - 1];
    }
  }

  lemma JoiningSharesOut(taken: nat, held: seq<seq<nat>>, placed: seq<nat>)
    requires SharedOut(taken, held, placed)
    ensures SharedOut(taken, held + [[]], placed)
  {
    var next := held + [[]];
    forall p: nat | p < taken && p !in placed ensures exists v :: 0 <= v < |next| && p in next[v] {
      var v :| 0 <= v < |held| && p in held[v];
      assert p in next[v];
    }
  }

  lemma StartKeepsAccount(s: Pipe)
    requires Account(s)
    ensures Account(EnsureStarted(s))
  {
    JoiningSharesOut(s.Taken(), s.held, s.placed);
    hide SharedOut, OpsOf, CommittedOps, ApplyAll;
  }

  lemma PutKeepsAccount(s: Pipe, op: LogOp)
    requires Account(s)
    ensures Account(Put(s, op))
  {
    hide SharedOut, OpsOf, CommittedOps, ApplyAll;
    var t := Put(s, op);
    assert t.Taken() == s.Taken();
    assert t.accepted[s.Taken()..] == s.accepted[s.Taken()..] + [op];
  }

  lemma EnqueueKeepsAccount(s: Pipe, op: LogOp)
    requires Account(s)
    ensures Account(Enqueue(s, op))
  {
    PutKeepsAccount(s, op);
    hide SharedOut, OpsOf, CommittedOps, ApplyAll;
  }

  /** The account does not speak of callers that wait, nor of the numbers. */
  lemma CallersKeepAccount(s: Pipe, waiting: seq<Emission>, query: Option<Query>, numbers: map<string, int>,
                           handedOut: seq<(string, int)>)
    requires Account(s)
    ensures Account(s.(waiting := waiting, query := query, numbers := numbers, handedOut := handedOut))
  {
    hide SharedOut, OpsOf, CommittedOps, ApplyAll;
  }

  lemma SubmitKeepsAccount(s: Pipe, e: Emission)
    requires Account(s) && e.taskId in s.numbers
    ensures Account(Submit(s, e))
  {
    hide Account;
    var numbered := Number(s, e.taskId);
    CallersKeepAccount(s, s.waiting, s.query, numbered.numbers, numbered.handedOut);
    EnqueueKeepsAccount(numbered, Create(Row(e.id, e.taskId, NextNumber(s, e.taskId), e.fields), e.priority));
  }

  lemma AskKeepsAccount(s: Pipe, i: nat)
    requires Account(s) && i < |s.waiting| && s.query.None?
    ensures Account(Ask(s, i))
  {
    hide Account;
    var e, left := s.waiting[i], s.waiting[..i] + s.waiting[i + 1..];
    CallersKeepAccount(s, left, None, s.numbers, s.handedOut);
    CallersKeepAccount(s, left, Some(Query(e, MaxEventSeq(s.table, e.taskId))), s.numbers, s.handedOut);
    if e.taskId in s.numbers {
      SubmitKeepsAccount(s.(waiting := left), e);
    }
  }

  lemma AnswerKeepsAccount(s: Pipe, succeeds: bool)
    requires Account(s) && s.query.Some?
    ensures Account(Answer(s, succeeds))
  {
    hide Account;
    var q := s.query.value;
    CallersKeepAccount(s, s.waiting, None, s.numbers, s.handedOut);
    CallersKeepAccount(s, s.waiting, None, s.numbers[q.emission.taskId := q.max], s.handedOut);
    if succeeds {
      SubmitKeepsAccount(s.(query := None, numbers := s.numbers[q.emission.taskId := q.max]), q.emission);
    }
  }

  /** A worker's batch grows by the first n operations of the queue. */
  function Grown(s: Pipe, w: nat, now: Worker, n: nat): Pipe
    requires w < |s.workers| && n <= |s.queue|
  {
    s.(workers := s.workers[w := now], queue := s.queue[n..],
       held := Hold(s.held, w, HeldBy(s.held, w) + Span(s.Taken(), n)))
  }

  lemma GrowthKeepsAccount(s: Pipe, w: nat, now: Worker, n: nat)
    requires Account(s) && w < |s.workers| && n <= |s.queue|
    requires BatchOf(now) == BatchOf(s.workers[w]) + s.queue[..n]
    ensures Account(Grown(s, w, now, n))
  {
    assert |s.held| == |s.workers| && HeldBy(s.held, w) == s.held[w];
    TakingSharesOut(s.Taken(), s.held, s.placed, w, n);
    GrowthFiled(s, w, now, n);
    hide SharedOut, Filed, OpsOf, CommittedOps, ApplyAll, Hold, HeldBy, Span;
  }

  lemma GrowthFiled(s: Pipe, w: nat, now: Worker, n: nat)
    requires Filed(s) && w < |s.workers| && n <= |s.queue|
    requires BatchOf(now) == BatchOf(s.workers[w]) + s.queue[..n]
    ensures Filed(Grown(s, w, now, n)) && Grown(s, w, now, n).Taken() == s.Taken() + n
  {
    var t := Grown(s, w, now, n);
    assert t.Taken() == s.Taken() + n;
    assert s.accepted[s.Taken()..][n..] == s.accepted[s.Taken() + n..];
    assert Picked(s.accepted, s.held[w], BatchOf(s.workers[w]));
    hide OpsOf, Picked, WorkersFiled;
    assert HeldBy(s.held, w) == s.held[w];
    PickedFurther(s.accepted, s.held[w], BatchOf(s.workers[w]), s.Taken(), n);
    OneWorkerFiled(s.accepted, s.held, s.workers, w, s.held[w] + Span(s.Taken(), n), now);
  }

  lemma PickedFurther(accepted: seq<LogOp>, places: seq<nat>, ops: seq<LogOp>, taken: nat, n: nat)
    requires Picked(accepted, places, ops) && taken + n <= |accepted|
    ensures Picked(accepted, places + Span(taken, n), ops + accepted[taken..][..n])
  {
  }

  lemma TakeKeepsAccount(s: Pipe, w: nat)
    requires Account(s) && w < |s.workers| && s.workers[w].Idle? && s.queue != []
    ensures Account(Step(s, TakeFirst(w)))
  {
    var now := Filling([s.queue[0]]);
    GrowthKeepsAccount(s, w, now, 1);
    assert s.held[w] == [] by { assert Picked(s.accepted, s.held[w], BatchOf(s.workers[w])); }
    assert [] + Span(s.Taken(), 1) == [s.Taken()];
    assert Step(s, TakeFirst(w)) == Grown(s, w, now, 1);
    hide Account;
  }

  lemma FillKeepsAccount(s: Pipe, w: nat)
    requires Account(s) && w < |s.workers| && s.workers[w].Filling?
    ensures Account(Step(s, FillBatch(w)))
  {
    hide Account;
    var n := Extra(s, |s.workers[w].batch|);
    var now := Flushing(s.workers[w].batch + s.queue[..n]);
    GrowthKeepsAccount(s, w, now, n);
    assert Step(s, FillBatch(w)) == Grown(s, w, now, n);
  }

  lemma {:induction false} ApplyAllAppend(table: seq<Row>, a: seq<LogOp>, b: seq<LogOp>)
    ensures ApplyAll(ApplyAll(table, a), b) == ApplyAll(table, a + b)
  {
    if b == [] {
      assert a + b == a;
    } else {
      ApplyAllAppend(table, a, b[..|b| - 1]);
      assert (a + b)[..|a + b| - 1] == a + b[..|b| - 1];
    }
  }

  lemma FinishedAppend(finished: seq<Batch>, b: Batch)
    ensures OpsOf(finished + [b]) == OpsOf(finished) + b.ops
    ensures CommittedOps(finished + [b]) == CommittedOps(finished) + if b.committed then b.ops else []
  {
    assert (finished + [b])[..|finished|] == finished;
  }

  lemma FlushKeepsAccount(s: Pipe, w: nat, commits: bool)
    requires Account(s) && w < |s.workers| && s.workers[w].Flushing?
    ensures Account(Step(s, Flush(w, commits)))
  {
    assert |s.held| == |s.workers| && HeldBy(s.held, w) == s.held[w];
    hide SharedOut, Filed, WritesCommitted, OpsOf, CommittedOps, ApplyAll, Hold, HeldBy;
    FinishingSharesOut(s.Taken(), s.held, s.placed, w);
    FlushFiled(s, w, commits);
    FlushWritesCommitted(s, w, commits);
  }

  lemma FlushWritesCommitted(s: Pipe, w: nat, commits: bool)
    requires WritesCommitted(s) && w < |s.workers| && s.workers[w].Flushing?
    ensures WritesCommitted(Step(s, Flush(w, commits)))
  {
    hide ApplyAll, OpsOf, CommittedOps;
    var b := Batch(s.workers[w].batch, commits);
    FinishedAppend(s.finished, b);
    ApplyAllAppend(s.base, CommittedOps(s.finished), b.ops);
    assert CommittedOps(s.finished) + [] == CommittedOps(s.finished);
  }

  lemma FlushFiled(s: Pipe, w: nat, commits: bool)
    requires Filed(s) && w < |s.workers| && s.workers[w].Flushing?
    ensures Filed(Step(s, Flush(w, commits))) && Step(s, Flush(w, commits)).Taken() == s.Taken()
  {
    var b := Batch(s.workers[w].batch, commits);
    FinishedAppend(s.finished, b);
    assert Picked(s.accepted, s.held[w], BatchOf(s.workers[w]));
    NothingPicked(s.accepted);
    hide OpsOf, ApplyAll, Picked, WorkersFiled;
    assert HeldBy(s.held, w) == s.held[w];
    PickedTogether(s.accepted, s.placed, OpsOf(s.finished), s.held[w], b.ops);
    OneWorkerFiled(s.accepted, s.held, s.workers, w, [], Idle);
  }

  lemma PickedTogether(accepted: seq<LogOp>, a: seq<nat>, opsA: seq<LogOp>, b: seq<nat>, opsB: seq<LogOp>)
    requires Picked(accepted, a, opsA) && Picked(accepted, b, opsB)
    ensures Picked(accepted, a + b, opsA + opsB)
  {
  }

  lemma NothingPicked(accepted: seq<LogOp>)
    ensures Picked(accepted, [], [])
  {
  }

  lemma ExitKeepsAccount(s: Pipe, w: nat)
    requires Account(s) && w < |s.workers| && s.workers[w].Idle? && !s.running && s.queue == []
    ensures Account(Step(s, Exit(w)))
  {
    IdleHoldsNothing(s, w);
    LeavingSharesOut(s.Taken(), s.held, s.placed, w);
    ExitFiled(s, w);
    hide SharedOut, Filed, OpsOf, CommittedOps, ApplyAll;
  }

  lemma ExitFiled(s: Pipe, w: nat)
    requires Filed(s) && w < |s.workers| && s.workers[w].Idle? && !s.running && s.queue == []
    ensures Filed(Step(s, Exit(w))) && Step(s, Exit(w)).Taken() == s.Taken()
  {
    hide OpsOf, Picked;
    var t := Step(s, Exit(w));
    assert forall v :: 0 <= v < |t.workers| ==>
             t.workers[v] == s.workers[if v < w then v else v + 1] && t.held[v] == s.held[if v < w then v else v + 1];
  }

  lemma UnblockKeepsAccount(s: Pipe, i: nat)
    requires Account(s) && i < |s.blocked|
    ensures Account(Put(s.(blocked := s.blocked[..i] + s.blocked[i + 1..]), s.blocked[i]))
  {
    hide SharedOut, OpsOf, CommittedOps, ApplyAll;
    PutKeepsAccount(s.(blocked := s.blocked[..i] + s.blocked[i + 1..]), s.blocked[i]);
  }

  lemma NewProcessAccount(capacity: int, batchSize: int, table: seq<Row>)
    ensures Account(Created(capacity, batchSize, table))
  {
  }

  lemma StopKeepsAccount(s: Pipe)
    requires Account(s)
    ensures Account(Step(s, Stop))
  {
    hide SharedOut, OpsOf, CommittedOps, ApplyAll;
  }

  lemma StepKeepsAccount(s: Pipe, e: Event)
    requires Account(s)
    ensures Account(Step(s, e))
  {
    hide Account;
    match e
    case StartUp => StartKeepsAccount(s);
    case EmitCreate(e) =>
      StartKeepsAccount(s);
      CallersKeepAccount(EnsureStarted(s), s.waiting + [e], s.query, s.numbers, s.handedOut);
    case AskNumber(i) => if i < |s.waiting| && s.query.None? { AskKeepsAccount(s, i); }
    case TableAnswers(succeeds) => if s.query.Some? { AnswerKeepsAccount(s, succeeds); }
    case EmitUpdate(id, updates, priority) =>
      StartKeepsAccount(s);
      EnqueueKeepsAccount(EnsureStarted(s), Update(id, updates, priority));
    case Unblock(i) => if i < |s.blocked| { UnblockKeepsAccount(s, i); }
    case TakeFirst(w) => if w < |s.workers| && s.workers[w].Idle? && s.queue != [] { TakeKeepsAccount(s, w); }
    case FillBatch(w) => if w < |s.workers| && s.workers[w].Filling? { FillKeepsAccount(s, w); }
    case Flush(w, commits) => if w < |s.workers| && s.workers[w].Flushing? { FlushKeepsAccount(s, w, commits); }
    case Exit(w) => if w < |s.workers| && s.workers[w].Idle? && !s.running && s.queue == [] { ExitKeepsAccount(s, w); }
    case Stop => StopKeepsAccount(s);
    case Restart => NewProcessAccount(s.capacity, s.batchSize, s.table);
  }

  /** In every run, with any number of workers, drops, failures and restarts, every accepted operation is accounted for. */
  lemma {:induction false} RunKeepsAccount(capacity: int, batchSize: int, table: seq<Row>, events: seq<Event>)
    ensures Account(Run(Created(capacity, batchSize, table), events))
  {
    hide Account, Step;
    if events == [] {
      NewProcessAccount(capacity, batchSize, table);
    } else {
      RunKeepsAccount(capacity, batchSize, table, events[..|events| - 1]);
      StepKeepsAccount(Run(Created(capacity, batchSize, table), events[..|events| - 1]), Last(events));
    }
  }

  // ---------------------------------------------------------------- the order of acceptance

  /** The finished operations are the first ones accepted, in the order of acceptance. */
  ghost predicate InOrder(placed: seq<nat>) {
    forall i :: 0 <= i < |placed| ==> placed[i] == i
  }

  /** Another worker still holds an operation older than one of worker w. */
  ghost predicate HoldsNewer(held: seq<seq<nat>>, w: nat) {
    exists v: nat, p: nat, q: nat :: Overtaken(held, w, v, p, q)
  }

  ghost predicate Overtaken(held: seq<seq<nat>>, w: nat, v: nat, p: nat, q: nat) {
    v < |held| && w < |held| && v != w && p in held[v] && q in held[w] && p < q
  }

  /** A flush that finishes an operation while another worker holds an older one. */
  ghost predicate Overtakes(s: Pipe, e: Event) {
    e.Flush? && e.w < |s.workers| && s.workers[e.w].Flushing? && HoldsNewer(s.held, e.w)
  }

  /** Nothing older is held elsewhere, so the batch continues where the finished ones end. */
  lemma {:induction false} BatchContinues(taken: nat, held: seq<seq<nat>>, placed: seq<nat>, w: nat, i: nat)
    requires SharedOut(taken, held, placed) && InOrder(placed) && w < |held| && !HoldsNewer(held, w)
    requires i < |held[w]|
    ensures held[w][i] == |placed| + i
  {
    forall j | 0 <= j < i ensures held[w][j] == |placed| + j {
      BatchContinues(taken, held, placed, w, j);
    }
    var q, p := held[w][i], |placed| + i;
    forall r: nat | r < |placed| ensures r in placed {
      assert placed[r] in placed;
    }
    assert q in held[w] && q !in placed && q < taken && Rising(held[w]);
    assert i > 0 ==> held[w][i - 1] < q;
    hide SharedOut, HoldsNewer;
    if q > p {
      assert p !in placed;
      assert forall k :: 0 <= k < |held[w]| ==> if k < i then held[w][k] < p else held[w][k] >= q;
      GapIsHeldElsewhere(taken, held, placed, w, p, q);
    }
  }

  lemma GapIsHeldElsewhere(taken: nat, held: seq<seq<nat>>, placed: seq<nat>, w: nat, p: nat, q: nat)
    requires SharedOut(taken, held, placed) && w < |held|
    requires p < q < taken && p !in placed && p !in held[w] && q in held[w]
    ensures HoldsNewer(held, w)
  {
    var v :| 0 <= v < |held| && p in held[v];
    assert Overtaken(held, w, v, p, q);
  }

  lemma OlderIsHeldHere(taken: nat, held: seq<seq<nat>>, placed: seq<nat>, w: nat, v: nat, p: nat, q: nat)
    requires SharedOut(taken, held, placed) && w < |held| && v < |held| && InOrder(placed + held[w])
    requires p in held[v] && q in held[w] && p < q
    ensures v == w
  {
    var done := placed + held[w];
    var i :| 0 <= i < |held[w]| && held[w][i] == q;
    assert done[|placed| + i] == q && done[p] == p;
    assert p in placed || p in held[w];
  }

  lemma OrderedBatchIsOldest(taken: nat, held: seq<seq<nat>>, placed: seq<nat>, w: nat)
    requires SharedOut(taken, held, placed) && w < |held| && InOrder(placed + held[w])
    ensures !HoldsNewer(held, w)
  {
    hide SharedOut, InOrder;
    forall v: nat, p: nat, q: nat ensures !Overtaken(held, w, v, p, q) {
      if v < |held| && p in held[v] && q in held[w] && p < q {
        OlderIsHeldHere(taken, held, placed, w, v, p, q);
      }
    }
  }

  /** A flush keeps the order exactly when nothing older is held by another worker. */
  lemma FlushKeepsOrderExactly(s: Pipe, e: Event)
    requires Account(s) && InOrder(s.placed)
    ensures InOrder(Step(s, e).placed) <==> !Overtakes(s, e)
  {
    if e.Flush? && e.w < |s.workers| && s.workers[e.w].Flushing? {
      var w := e.w;
      assert Step(s, e).placed == s.placed + s.held[w];
      hide Step;
      if InOrder(s.placed + s.held[w]) {
        OrderedBatchIsOldest(s.Taken(), s.held, s.placed, w);
      }
      if !HoldsNewer(s.held, w) {
        forall i | 0 <= i < |s.held[w]| ensures s.held[w][i] == |s.placed| + i {
          BatchContinues(s.Taken(), s.held, s.placed, w, i);
        }
      }
    } else {
      OnlyFlushesPlace(s, e);
    }
  }

  lemma OnlyFlushesPlace(s: Pipe, e: Event)
    requires !(e.Flush? && e.w < |s.workers| && s.workers[e.w].Flushing?)
    ensures Step(s, e).placed == s.placed || Step(s, e).placed == []
  {
  }

  ghost predicate InOrderThroughout(s: Pipe, events: seq<Event>) {
    InOrder(Run(s, events).placed) && (events != [] ==> InOrderThroughout(s, events[..|events| - 1]))
  }

  ghost predicate NeverOvertakes(s: Pipe, events: seq<Event>) {
    events != [] ==>
      NeverOvertakes(s, events[..|events| - 1]) && !Overtakes(Run(s, events[..|events| - 1]), Last(events))
  }

  /**
   * Operations finish in the order of acceptance throughout a run exactly when no batch is flushed while another
   * worker holds an older operation.
   */
  lemma {:induction false} InOrderExactly(capacity: int, batchSize: int, table: seq<Row>, events: seq<Event>)
    ensures InOrderThroughout(Created(capacity, batchSize, table), events)
            <==> NeverOvertakes(Created(capacity, batchSize, table), events)
  {
    hide Account, InOrder, Overtakes, Step;
    var s := Created(capacity, batchSize, table);
    if events == [] {
      NothingPlacedYet(capacity, batchSize, table);
    } else {
      var init := events[..|events| - 1];
      InOrderExactly(capacity, batchSize, table, init);
      if InOrderThroughout(s, init) {
        RunKeepsAccount(capacity, batchSize, table, init);
        FlushKeepsOrderExactly(Run(s, init), Last(events));
      }
    }
  }

  lemma NothingPlacedYet(capacity: int, batchSize: int, table: seq<Row>)
    ensures InOrder(Created(capacity, batchSize, table).placed)
  {
  }

  // ---------------------------------------------------------------- the pipeline refines direct writes

  predicate Drained(s: Pipe) {
    s.queue == [] && forall w :: w in s.workers ==> w.Idle?
  }

  lemma {:induction false} AllCommitted(finished: seq<Batch>)
    requires forall b :: b in finished ==> b.committed
    ensures CommittedOps(finished) == OpsOf(finished)
  {
    if finished != [] {
      assert finished == finished[..|finished| - 1] + [Last(finished)];
      AllCommitted(finished[..|finished| - 1]);
    }
  }

  /** Once drained, every accepted operation has finished, once. */
  lemma DrainedMeansFinished(s: Pipe)
    requires Account(s) && Drained(s)
    ensures Picked(s.accepted, s.placed, OpsOf(s.finished)) && Distinct(s.placed)
    ensures forall p: nat :: p < |s.accepted| ==> p in s.placed
    ensures InOrder(s.placed) ==> OpsOf(s.finished) == s.accepted
  {
    hide OpsOf, CommittedOps, ApplyAll;
    assert s.Taken() == |s.accepted|;
    forall w | 0 <= w < |s.held| ensures s.held[w] == [] {
      assert s.workers[w] in s.workers;
      IdleHoldsNothing(s, w);
    }
    if InOrder(s.placed) {
      OrderCovers(s.placed, |s.accepted|);
    }
  }

  lemma IdleHoldsNothing(s: Pipe, w: nat)
    requires Filed(s) && w < |s.workers| && s.workers[w].Idle?
    ensures s.held[w] == []
  {
    assert Picked(s.accepted, s.held[w], BatchOf(s.workers[w]));
  }

  lemma OrderCovers(places: seq<nat>, n: nat)
    requires InOrder(places) && forall p: nat :: p < n ==> p in places
    requires forall p: nat :: p in places ==> p < n
    ensures |places| == n
  {
    if n > 0 { assert n - 1 in places; }
    if |places| > 0 { assert places[|places| - 1] in places; }
  }

  /**
   * Once drained, with no failed batch and no batch flushed past an older operation, the table is as if every
   * accepted operation had been written directly.
   */
  lemma DrainedEqualsDirectWrites(capacity: int, batchSize: int, table: seq<Row>, events: seq<Event>)
    requires NeverOvertakes(Created(capacity, batchSize, table), events)
    ensures var s := Run(Created(capacity, batchSize, table), events);
            Drained(s) && (forall b :: b in s.finished ==> b.committed) ==> s.table == ApplyAll(s.base, s.accepted)
  {
    var s := Run(Created(capacity, batchSize, table), events);
    InOrderExactly(capacity, batchSize, table, events);
    assert InOrder(s.placed);
    RunKeepsAccount(capacity, batchSize, table, events);
    if Drained(s) && forall b :: b in s.finished ==> b.committed {
      hide Run, NeverOvertakes, InOrderThroughout, InOrder;
      AllCommitted(s.finished);
      DrainedMeansFinished(s);
    }
  }

  /** With one batch in flight the accepted operations are the finished ones, then that batch, then the queue. */
  lemma OneBatchInFlight(s: Pipe, w: nat)
    requires Account(s) && InOrder(s.placed) && w < |s.workers|
    requires forall v :: 0 <= v < |s.workers| && v != w ==> s.workers[v].Idle?
    ensures s.accepted == OpsOf(s.finished) + BatchOf(s.workers[w]) + s.queue
  {
    hide OpsOf, CommittedOps, ApplyAll;
    forall v | 0 <= v < |s.held| && v != w ensures s.held[v] == [] {
      IdleHoldsNothing(s, v);
    }
    assert !HoldsNewer(s.held, w);
    forall i | 0 <= i < |s.held[w]| ensures s.held[w][i] == |s.placed| + i {
      BatchContinues(s.Taken(), s.held, s.placed, w, i);
    }
    var done := s.placed + s.held[w];
    assert forall p: nat :: p in done <==> p in s.placed || p in s.held[w];
    OrderCovers(done, s.Taken());
    assert Picked(s.accepted, s.held[w], BatchOf(s.workers[w]));
    var ops := OpsOf(s.finished) + BatchOf(s.workers[w]);
    assert forall i :: 0 <= i < |ops| ==> ops[i] == s.accepted[done[i]] && done[i] == i;
    assert ops == s.accepted[..s.Taken()];
  }

  /** When the last worker leaves after a stop, everything accepted so far has finished. */
  lemma StoppedMeansDrained(s: Pipe, w: nat)
    requires Account(s) && Step(s, Exit(w)) != s && Step(s, Exit(w)).workers == []
    ensures Drained(s) && forall p: nat :: p < |s.accepted| ==> p in s.placed
  {
    assert s.workers == [s.workers[w]];
    DrainedMeansFinished(s);
  }

  // ---------------------------------------------------------------- one worker at a time

  /** Starting a stopped pipeline whose worker has not left yet starts a second worker. */
  predicate StartsSecondWorker(s: Pipe, e: Event) {
    (e.StartUp? || e.EmitCreate? || e.EmitUpdate?) && !s.running && s.workers != []
  }

  predicate OneWorkerThroughout(s: Pipe, events: seq<Event>) {
    events != [] ==>
      OneWorkerThroughout(s, events[..|events| - 1]) && !StartsSecondWorker(Run(s, events[..|events| - 1]), Last(events))
  }

  lemma StepKeepsOneWorker(s: Pipe, e: Event)
    requires |s.workers| <= 1 && Account(s)
    ensures |Step(s, e).workers| <= 1 <==> !StartsSecondWorker(s, e)
  {
    hide Account;
    RunningHasWorker(s);
  }

  lemma RunningHasWorker(s: Pipe)
    requires Account(s)
    ensures s.running ==> s.workers != []
    ensures |s.held| == |s.workers|
  {
  }

  /** With one worker at a time nothing is overtaken, so the order of acceptance is kept. */
  lemma {:induction false} OneWorkerNeverOvertakes(capacity: int, batchSize: int, table: seq<Row>, events: seq<Event>)
    requires OneWorkerThroughout(Created(capacity, batchSize, table), events)
    ensures |Run(Created(capacity, batchSize, table), events).workers| <= 1
    ensures NeverOvertakes(Created(capacity, batchSize, table), events)
  {
    hide Account, StartsSecondWorker, Step;
    if events != [] {
      var init := events[..|events| - 1];
      var s := Run(Created(capacity, batchSize, table), init);
      OneWorkerNeverOvertakes(capacity, batchSize, table, init);
      RunKeepsAccount(capacity, batchSize, table, init);
      RunningHasWorker(s);
      StepKeepsOneWorker(s, Last(events));
      LoneWorkerOvertakesNothing(s, Last(events));
    }
  }

  lemma LoneWorkerOvertakesNothing(s: Pipe, e: Event)
    requires |s.held| <= 1
    ensures !Overtakes(s, e)
  {
  }

  // ---------------------------------------------------------------- what an operation meets when it is emitted

  /** Only a low-priority operation at a full queue is refused; others are accepted or wait. */
  lemma RefusedExactly(s: Pipe, op: LogOp)
    ensures var t := Enqueue(s, op);
            && (t.accepted == s.accepted + [op] <==> !s.Full())
            && (t == s <==> s.Full() && op.priority.Low?)
            && (t.blocked == s.blocked + [op] <==> s.Full() && !op.priority.Low?)
  {
    assert s.blocked + [op] != s.blocked;
  }

  // ---------------------------------------------------------------- which changes of order matter

  /** Two updates set some field to different values. */
  predicate Disagree(p: map<string, string>, q: map<string, string>) {
    exists k :: k in p && k in q && p[k] != q[k]
  }

  predicate HasId(table: seq<Row>, id: string) {
    exists row :: row in table && row.id == id
  }

  /**
   * Two operations whose order matters on this table: an update that changes the row being created, two updates of
   * an existing row that disagree, or two different creations.
   */
  predicate Conflict(table: seq<Row>, a: LogOp, b: LogOp) {
    match (a, b)
    case (Create(row, _), Create(other, _)) => row != other
    case (Create(row, _), Update(id, updates, _)) => row.id == id && row.fields + Allowed(updates) != row.fields
    case (Update(id, updates, _), Create(row, _)) => row.id == id && row.fields + Allowed(updates) != row.fields
    case (Update(id, p, _), Update(other, q, _)) => id == other && HasId(table, id) && Disagree(Allowed(p), Allowed(q))
  }

  /** Exchanging two neighbouring operations changes the table exactly when they conflict. */
  lemma OrderMattersExactly(table: seq<Row>, a: LogOp, b: LogOp)
    ensures Apply(Apply(table, a), b) != Apply(Apply(table, b), a) <==> Conflict(table, a, b)
  {
    match (a, b)
    case (Create(row, _), Create(other, _)) => TwoCreations(table, row, other);
    case (Create(row, _), Update(id, updates, _)) => CreationAndUpdate(table, row, id, Allowed(updates));
    case (Update(id, updates, _), Create(row, _)) => CreationAndUpdate(table, row, id, Allowed(updates));
    case (Update(id, p, _), Update(other, q, _)) => TwoUpdates(table, id, Allowed(p), other, Allowed(q));
  }

  lemma TwoCreations(table: seq<Row>, a: Row, b: Row)
    ensures table + [a] + [b] == table + [b] + [a] <==> a == b
  {
    if a != b {
      assert (table + [a] + [b])[|table|] != (table + [b] + [a])[|table|];
    }
  }

  lemma CreationAndUpdate(table: seq<Row>, row: Row, id: string, p: map<string, string>)
    ensures UpdateRows(table + [row], id, p) == UpdateRows(table, id, p) + [row] <==> row.id != id || row.fields + p == row.fields
  {
    var late, early := UpdateRows(table + [row], id, p), UpdateRows(table, id, p) + [row];
    assert forall i :: 0 <= i < |table| ==> late[i] == early[i];
    assert late[|table|] == if row.id == id then row.(fields := row.fields + p) else row;
    assert early[|table|] == row;
  }

  lemma MergedBothWays(fields: map<string, string>, p: map<string, string>, q: map<string, string>)
    ensures fields + p + q == fields + q + p <==> !Disagree(p, q)
  {
    var pq, qp := fields + p + q, fields + q + p;
    if k :| k in p && k in q && p[k] != q[k] {
      assert pq[k] == q[k] && qp[k] == p[k];
    } else {
      assert forall k :: k in pq ==> pq[k] == qp[k];
    }
  }

  lemma TwoUpdates(table: seq<Row>, id: string, p: map<string, string>, other: string, q: map<string, string>)
    ensures UpdateRows(UpdateRows(table, id, p), other, q) == UpdateRows(UpdateRows(table, other, q), id, p)
            <==> !(id == other && HasId(table, id) && Disagree(p, q))
  {
    var a, b := UpdateRows(UpdateRows(table, id, p), other, q), UpdateRows(UpdateRows(table, other, q), id, p);
    forall i | 0 <= i < |table|
      ensures a[i] == b[i] <==> !(id == other && table[i].id == id && Disagree(p, q))
    {
      MergedBothWays(table[i].fields, p, q);
      assert a[i].fields == b[i].fields <==> a[i] == b[i];
    }
    if row :| id == other && row in table && row.id == id && Disagree(p, q) {
      var i :| 0 <= i < |table| && table[i] == row;
      assert a[i] != b[i];
    } else {
      assert forall i :: 0 <= i < |table| ==> table[i] in table;
    }
  }

  // ---------------------------------------------------------------- a run that loses an update

  lemma {:induction false} RunSplit(s: Pipe, a: seq<Event>, b: seq<Event>)
    ensures Run(s, a + b) == Run(Run(s, a), b)
  {
    RunNone(Run(s, a));
    hide Run, Step;
    if b == [] {
      assert a + b == a;
    } else {
      var init, e := b[..|b| - 1], b[|b| - 1];
      RunSplit(s, a, init);
      RunAdd(s, a + init, e);
      RunAdd(Run(s, a), init, e);
      assert init + [e] == b && (a + init) + [e] == a + b;
    }
  }

  lemma RunNone(s: Pipe)
    ensures Run(s, []) == s
  {
  }

  lemma RunOne(s: Pipe, e: Event)
    ensures Run(s, [e]) == Step(s, e)
  {
    assert [e][..0] == [];
    assert Run(s, []) == s;
    hide Step;
  }

  lemma RunAdd(s: Pipe, events: seq<Event>, e: Event)
    ensures Run(s, events + [e]) == Step(Run(s, events), e)
  {
    assert (events + [e])[..|events|] == events;
    hide Step;
  }

  lemma RunTwo(s: Pipe, a: Event, b: Event)
    ensures Run(s, [a, b]) == Step(Step(s, a), b)
  {
    hide *;
    RunOne(s, a);
    RunAdd(s, [a], b);
    assert [a] + [b] == [a, b];
  }

  lemma RunThree(s: Pipe, a: Event, b: Event, c: Event)
    ensures Run(s, [a, b, c]) == Step(Step(Step(s, a), b), c)
  {
    hide *;
    RunTwo(s, a, b);
    RunAdd(s, [a, b], c);
    assert [a, b] + [c] == [a, b, c];
  }

  function Creation(e: Emission): seq<Event> {
    [EmitCreate(e), AskNumber(0), TableAnswers(true)]
  }

  /** A create is being written, the pipeline is told to stop, and an update of the same row arrives. */
  function StopRace(id: string, taskId: string, value: string): seq<Event> {
    Creation(Emission(id, taskId, map[], Normal)) +
    [TakeFirst(0), FillBatch(0)] +
    [Stop, EmitUpdate(id, map["status" := value], Normal)] +
    [TakeFirst(1), FillBatch(1), Flush(1, true)] +
    [Flush(0, true)]
  }

  /**
   * An update emitted while the pipeline is stopping gets a worker of its own, overtakes the creation of its row,
   * and stays without effect although every batch committed.
   */
  lemma SecondWorkerReorders(capacity: int, batchSize: int, id: string, taskId: string, value: string)
    ensures var s := Run(Created(capacity, batchSize, []), StopRace(id, taskId, value));
            && Drained(s) && (forall b :: b in s.finished ==> b.committed) && s.placed == [1, 0]
            && s.table == [Row(id, taskId, 1, map[])]
            && ApplyAll(s.base, s.accepted) == [Row(id, taskId, 1, map["status" := value])]
  {
    var row := Row(id, taskId, 1, map[]);
    var create, update := Create(row, Normal), Update(id, map["status" := value], Normal);
    var e := Emission(id, taskId, map[], Normal);
    var s0 := Created(capacity, batchSize, []);
    var s1 := s0.(running := true, workers := [Idle], held := [[]], queue := [create], numbers := map[taskId := 1],
                  accepted := [create], handedOut := [(taskId, 1)]);
    var s2 := s1.(workers := [Flushing([create])], held := [[0]], queue := []);
    var s3 := s2.(workers := [Flushing([create]), Idle], held := [[0], []], queue := [update], accepted := [create, update]);
    var s4 := s3.(queue := [], finished := [Batch([update], true)], placed := [1]);
    var s5 := s4.(workers := [Idle, Idle], held := [[], []], finished := [Batch([update], true), Batch([create], true)],
                  placed := [1, 0], table := [row]);
    RaceCreates(s0, e, s1);
    RaceFills(s1, create, s2);
    RaceUpdates(s2, create, id, value, s3);
    RaceOvertakes(s3, create, update, s4);
    RaceEnds(s4, create, update, s5);
    DirectRace(row, create, update, value);
    hide Run, ApplyAll, Step;
    var a, b, c, d := Creation(e), [TakeFirst(0), FillBatch(0)], [Stop, EmitUpdate(id, map["status" := value], Normal)],
                      [TakeFirst(1), FillBatch(1), Flush(1, true)];
    RunSplit(s0, a, b);
    RunSplit(s0, a + b, c);
    RunSplit(s0, a + b + c, d);
    RunSplit(s0, a + b + c + d, [Flush(0, true)]);
  }

  /** A new pipeline's first create asks the table for the numbers of its task. */
  lemma AskedForNumber(s: Pipe, e: Emission)
    requires s == Created(s.capacity, s.batchSize, s.table)
    ensures Step(Step(s, EmitCreate(e)), AskNumber(0))
            == s.(running := true, workers := [Idle], held := [[]], query := Some(Query(e, MaxEventSeq(s.table, e.taskId))))
  {
    var s1 := s.(running := true, workers := [Idle], held := [[]], waiting := [e]);
    assert Step(s, EmitCreate(e)) == s1;
    assert s1.waiting[..0] + s1.waiting[0 + 1..] == [];
  }

  lemma RaceCreates(s: Pipe, e: Emission, t: Pipe)
    requires s == Created(s.capacity, s.batchSize, []) && e.fields == map[] && e.priority == Normal
    requires var create := Create(Row(e.id, e.taskId, 1, map[]), Normal);
             t == s.(running := true, workers := [Idle], held := [[]], queue := [create], numbers := map[e.taskId := 1],
                     accepted := [create], handedOut := [(e.taskId, 1)])
    ensures Run(s, Creation(e)) == t
  {
    AskedForNumber(s, e);
    assert map[e.taskId := 0][e.taskId := 1] == map[e.taskId := 1];
    RunThree(s, EmitCreate(e), AskNumber(0), TableAnswers(true));
  }

  lemma RaceFills(s: Pipe, create: LogOp, t: Pipe)
    requires s.workers == [Idle] && s.held == [[]] && s.queue == [create] == s.accepted
    requires t == s.(workers := [Flushing([create])], held := [[0]], queue := [])
    ensures Run(s, [TakeFirst(0), FillBatch(0)]) == t
  {
    hide *;
    var s1 := s.(workers := [Filling([create])], held := [[0]], queue := []);
    RaceTakes(s, create, s1);
    RaceFinds(s1, create, t);
    RunTwo(s, TakeFirst(0), FillBatch(0));
  }

  lemma RaceTakes(s: Pipe, create: LogOp, t: Pipe)
    requires s.workers == [Idle] && s.held == [[]] && s.queue == [create] == s.accepted
    requires t == s.(workers := [Filling([create])], held := [[0]], queue := [])
    ensures Step(s, TakeFirst(0)) == t
  {
    assert s.Taken() == 0 && s.queue[1..] == [] && [s.queue[0]] == [create];
    assert s.workers[0 := Filling([create])] == t.workers && Hold(s.held, 0, [0]) == t.held;
  }

  lemma RaceFinds(s: Pipe, create: LogOp, t: Pipe)
    requires s.workers == [Filling([create])] && s.held == [[0]] && s.queue == [] && s.accepted == [create]
    requires t == s.(workers := [Flushing([create])])
    ensures Step(s, FillBatch(0)) == t
  {
    assert Extra(s, 1) == 0 && s.queue[0..] == s.queue;
    assert [create] + s.queue[..0] == [create] && [0] + Span(s.Taken(), 0) == [0];
    assert s.workers[0 := Flushing([create])] == t.workers && Hold(s.held, 0, [0]) == s.held;
  }

  lemma RaceUpdates(s: Pipe, create: LogOp, id: string, value: string, t: Pipe)
    requires s.workers == [Flushing([create])] && s.held == [[0]] && s.queue == [] && s.accepted == [create] && s.running
    requires var update := Update(id, map["status" := value], Normal);
             t == s.(workers := [Flushing([create]), Idle], held := [[0], []], queue := [update], accepted := [create, update])
    ensures Run(s, [Stop, EmitUpdate(id, map["status" := value], Normal)]) == t
  {
    var update := Update(id, map["status" := value], Normal);
    assert EnsureStarted(Step(s, Stop)) == s.(workers := [Flushing([create]), Idle], held := [[0], []]);
    assert [create] + [update] == [create, update];
    RunTwo(s, Stop, EmitUpdate(id, map["status" := value], Normal));
  }

  lemma RaceOvertakes(s: Pipe, create: LogOp, update: LogOp, t: Pipe)
    requires s.workers == [Flushing([create]), Idle] && s.held == [[0], []] && s.queue == [update]
    requires s.accepted == [create, update] && s.table == [] && s.finished == [] && s.placed == [] && update.Update?
    requires t == s.(queue := [], finished := [Batch([update], true)], placed := [1])
    ensures Run(s, [TakeFirst(1), FillBatch(1), Flush(1, true)]) == t
  {
    var s1 := s.(workers := [Flushing([create]), Filling([update])], held := [[0], [1]], queue := []);
    var s2 := s1.(workers := [Flushing([create]), Flushing([update])]);
    assert Step(s, TakeFirst(1)) == s1;
    assert [update] + [] == [update] && [1] + Span(2, 0) == [1];
    assert Step(s1, FillBatch(1)) == s2;
    ApplyOne([], update);
    RaceFlush(s2, create, update, t);
    RunThree(s, TakeFirst(1), FillBatch(1), Flush(1, true));
    hide *;
  }

  lemma RaceFlush(s: Pipe, create: LogOp, update: LogOp, t: Pipe)
    requires s.workers == [Flushing([create]), Flushing([update])] && s.held == [[0], [1]]
    requires s.table == [] && s.finished == [] && s.placed == [] && update.Update?
    requires t == s.(workers := [Flushing([create]), Idle], held := [[0], []], finished := [Batch([update], true)], placed := [1])
    ensures Step(s, Flush(1, true)) == t
  {
    ApplyOne([], update);
    assert Apply([], update) == [];
    hide ApplyAll;
  }

  lemma RaceEnds(s: Pipe, create: LogOp, update: LogOp, t: Pipe)
    requires s.workers == [Flushing([create]), Idle] && s.held == [[0], []] && s.table == []
    requires s.finished == [Batch([update], true)] && s.placed == [1] && create.Create?
    requires t == s.(workers := [Idle, Idle], held := [[], []], finished := [Batch([update], true), Batch([create], true)],
                     placed := [1, 0], table := [create.row])
    ensures Run(s, [Flush(0, true)]) == t
  {
    ApplyOne([], create);
    hide ApplyAll;
    assert s.placed + [0] == [1, 0];
    assert Step(s, Flush(0, true)) == t;
    RunOne(s, Flush(0, true));
    hide *;
  }

  lemma ApplyOne(table: seq<Row>, op: LogOp)
    ensures ApplyAll(table, [op]) == Apply(table, op)
  {
    assert [op][..0] == [];
  }

  lemma DirectRace(row: Row, create: LogOp, update: LogOp, value: string)
    requires row.fields == map[] && create == Create(row, Normal) && update == Update(row.id, map["status" := value], Normal)
    ensures ApplyAll([], [create, update]) == [row.(fields := map["status" := value])]
  {
    assert [create, update][..1] == [create] && [create][..0] == [];
    assert Allowed(update.updates) == map["status" := value];
    var updated := UpdateRows([row], row.id, map["status" := value]);
    assert ApplyAll([], [create]) == [row];
    assert updated[0] == row.(fields := row.fields + map["status" := value]);
    assert row.fields + map["status" := value] == map["status" := value];
    assert updated == [row.(fields := map["status" := value])];
  }
}
