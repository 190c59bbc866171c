/**
 * Event numbers: in every run of the log pipeline the numbers of a task stay unique among the rows that land, and
 * within each process they grow in the order they are handed out.
 */
module LogNumbers {
  import opened Prelude
  import opened TaskLogPipeline

  function CountOps(ops: seq<LogOp>, taskId: string, n: int): nat {
    if ops == [] then 0 else
      CountOps(ops[..|ops| - 1], taskId, n) +
      if Last(ops).Create? && Last(ops).row.taskId == taskId && Last(ops).row.eventSeq == n then 1 else 0
  }

  function CountRows(table: seq<Row>, taskId: string, n: int): nat {
    if table == [] then 0 else
      CountRows(table[..|table| - 1], taskId, n) +
      if Last(table).taskId == taskId && Last(table).eventSeq == n then 1 else 0
  }

  function CountInFlight(workers: seq<Worker>, taskId: string, n: int): nat {
    if workers == [] then 0 else
      CountInFlight(workers[..|workers| - 1], taskId, n) +
      if Last(workers).Idle? then 0 else CountOps(Last(workers).batch, taskId, n)
  }

  /** Creations with this number that may still reach the table. */
  function Pending(s: Pipe, taskId: string, n: int): nat {
    CountOps(s.queue, taskId, n) + CountOps(s.blocked, taskId, n) + CountInFlight(s.workers, taskId, n)
  }

  lemma {:induction false} CountOpsSplit(a: seq<LogOp>, b: seq<LogOp>, taskId: string, n: int)
    ensures CountOps(a + b, taskId, n) == CountOps(a, taskId, n) + CountOps(b, taskId, n)
  {
    if b == [] {
      assert a + b == a;
    } else {
      CountOpsSplit(a, b[..|b| - 1], taskId, n);
      assert (a + b)[..|a + b| - 1] == a + b[..|b| - 1];
    }
  }

  lemma {:induction false} UpdatesKeepCounts(table: seq<Row>, id: string, payload: map<string, string>, taskId: string, n: int)
    ensures CountRows(UpdateRows(table, id, payload), taskId, n) == CountRows(table, taskId, n)
  {
    if table != [] {
      UpdatesKeepCounts(table[..|table| - 1], id, payload, taskId, n);
      assert UpdateRows(table, id, payload)[..|table| - 1] == UpdateRows(table[..|table| - 1], id, payload);
    }
  }

  lemma {:induction false} FlushAddsCounts(table: seq<Row>, ops: seq<LogOp>, taskId: string, n: int)
    ensures CountRows(ApplyAll(table, ops), taskId, n) == CountRows(table, taskId, n) + CountOps(ops, taskId, n)
  {
    if ops != [] {
      FlushAddsCounts(table, ops[..|ops| - 1], taskId, n);
      var before := ApplyAll(table, ops[..|ops| - 1]);
      match Last(ops)
      case Create(row, _) => assert (before + [row])[..|before|] == before;
      case Update(id, updates, _) => UpdatesKeepCounts(before, id, Allowed(updates), taskId, n);
    }
  }

  lemma {:induction false} WorkersChange(workers: seq<Worker>, w: nat, now: Worker, taskId: string, n: int)
    requires w < |workers|
    ensures CountInFlight(workers[w := now], taskId, n) + (if workers[w].Idle? then 0 else CountOps(workers[w].batch, taskId, n))
            == CountInFlight(workers, taskId, n) + if now.Idle? then 0 else CountOps(now.batch, taskId, n)
  {
    if w == |workers| - 1 {
      assert workers[w := now][..w] == workers[..w];
    } else {
      WorkersChange(workers[..|workers| - 1], w, now, taskId, n);
      assert workers[w := now][..|workers| - 1] == workers[..|workers| - 1][w := now];
    }
  }

  lemma {:induction false} IdleWorkerLeaves(workers: seq<Worker>, w: nat, taskId: string, n: int)
    requires w < |workers| && workers[w].Idle?
    ensures CountInFlight(workers[..w] + workers[w + 1..], taskId, n) == CountInFlight(workers, taskId, n)
  {
    if w == |workers| - 1 {
      assert workers[..w] + workers[w + 1..] == workers[..w];
    } else {
      IdleWorkerLeaves(workers[..|workers| - 1], w, taskId, n);
      var rest := workers[..w] + workers[w + 1..];
      assert rest[..|rest| - 1] == workers[..|workers| - 1][..w] + workers[..|workers| - 1][w + 1..];
    }
  }

  lemma {:induction false} RowsAreBelowMax(table: seq<Row>, taskId: string, n: int)
    requires CountRows(table, taskId, n) > 0
    ensures n <= MaxEventSeq(table, taskId)
  {
    var i := RowWithNumber(table, taskId, n);
    assert table[i] in table;
  }

  lemma {:induction false} RowWithNumber(table: seq<Row>, taskId: string, n: int) returns (i: nat)
    requires CountRows(table, taskId, n) > 0
    ensures i < |table| && table[i].taskId == taskId && table[i].eventSeq == n
  {
    i := |table| - 1;
    if !(table[i].taskId == taskId && table[i].eventSeq == n) {
      i := RowWithNumber(table[..i], taskId, n);
    }
  }

  /**
   * Against the table the very first process found: no number is used twice by what landed or may still land,
   * none repeats an original row's number, and the cache is above every number in use.
   */
  ghost predicate Numbered(s: Pipe, original: seq<Row>) {
    && (forall t, n :: Pending(s, t, n) > 0 ==> t in s.numbers && n <= s.numbers[t])
    && (forall t, n :: t in s.numbers && CountRows(s.table, t, n) > 0 ==> n <= s.numbers[t])
    && (forall t, n :: Pending(s, t, n) > 0 ==> Pending(s, t, n) + CountRows(s.table, t, n) == 1)
    && (forall t, n :: CountRows(s.table, t, n) == CountRows(original, t, n) ||
                       (CountRows(original, t, n) == 0 && CountRows(s.table, t, n) == 1))
    && (forall i, j :: 0 <= i < j < |s.handedOut| && s.handedOut[i].0 == s.handedOut[j].0 ==> s.handedOut[i].1 < s.handedOut[j].1)
    && (forall i :: 0 <= i < |s.handedOut| ==> s.handedOut[i].0 in s.numbers && s.handedOut[i].1 <= s.numbers[s.handedOut[i].0])
    && (s.query.Some? ==> AnswerHolds(s, s.query.value))
  }

  /** While a call waits, its task has no number and the answer stays at or above all its rows. */
  ghost predicate AnswerHolds(s: Pipe, q: Query) {
    q.emission.taskId !in s.numbers && forall n :: CountRows(s.table, q.emission.taskId, n) > 0 ==> n <= q.max
  }

  lemma NewNumberIsFree(s: Pipe, original: seq<Row>, taskId: string)
    requires Numbered(s, original) && taskId in s.numbers
    ensures forall n :: Pending(s, taskId, n) > 0 || CountRows(s.table, taskId, n) > 0 ==> n < NextNumber(s, taskId)
  {
  }

  /** Handing out a number: it is above all numbers of the task that landed or may still land. */
  lemma NumberKeepsNumbered(s: Pipe, original: seq<Row>, taskId: string)
    requires Numbered(s, original) && taskId in s.numbers
    ensures Numbered(Number(s, taskId), original) && SamePending(s, Number(s, taskId))
    ensures forall i :: 0 <= i < |s.handedOut| && s.handedOut[i].0 == taskId ==> s.handedOut[i].1 < NextNumber(s, taskId)
  {
    NewNumberIsFree(s, original, taskId);
    var t := Number(s, taskId);
    hide CountRows, CountOps, CountInFlight;
    assert forall x, n :: Pending(t, x, n) == Pending(s, x, n);
  }

  /** The answer enters the cache: the task had no number, so nothing of it is pending. */
  lemma AnswerKeepsNumbered(s: Pipe, original: seq<Row>)
    requires Numbered(s, original) && s.query.Some?
    ensures var q := s.query.value;
            Numbered(s.(query := None), original) &&
            Numbered(s.(query := None, numbers := s.numbers[q.emission.taskId := q.max]), original)
  {
    var t := s.(query := None);
    var u := t.(numbers := s.numbers[s.query.value.emission.taskId := s.query.value.max]);
    hide CountRows, CountOps, CountInFlight;
    assert forall x, n :: Pending(t, x, n) == Pending(s, x, n);
    assert forall x, n :: Pending(u, x, n) == Pending(s, x, n);
  }

  /** Asking the table: its maximum is at or above every row of the task. */
  lemma AskKeepsNumbered(s: Pipe, original: seq<Row>, e: Emission, left: seq<Emission>)
    requires Numbered(s, original) && s.query.None? && e.taskId !in s.numbers
    ensures Numbered(s.(waiting := left, query := Some(Query(e, MaxEventSeq(s.table, e.taskId)))), original)
  {
    var t := s.(waiting := left, query := Some(Query(e, MaxEventSeq(s.table, e.taskId))));
    forall n | CountRows(s.table, e.taskId, n) > 0 ensures n <= MaxEventSeq(s.table, e.taskId) {
      RowsAreBelowMax(s.table, e.taskId, n);
    }
    hide CountRows, CountOps, CountInFlight, MaxEventSeq;
    assert forall x, n :: Pending(t, x, n) == Pending(s, x, n);
  }

  ghost predicate SamePending(s: Pipe, t: Pipe) {
    forall x, n :: Pending(t, x, n) == Pending(s, x, n)
  }

  lemma SamePendingKeepsNumbered(s: Pipe, t: Pipe, original: seq<Row>)
    requires Numbered(s, original) && SamePending(s, t)
    requires t.numbers == s.numbers && t.table == s.table && t.handedOut == s.handedOut && t.query == s.query
    ensures Numbered(t, original)
  {
    hide Pending, CountRows;
  }

  /** A freshly numbered creation joins the queue or the blocked callers, or is dropped. */
  lemma EnqueueKeepsNumbered(s: Pipe, original: seq<Row>, op: LogOp)
    requires Numbered(s, original)
    requires op.Create? ==>
               && op.row.taskId in s.numbers && op.row.eventSeq <= s.numbers[op.row.taskId]
               && Pending(s, op.row.taskId, op.row.eventSeq) == 0 && CountRows(s.table, op.row.taskId, op.row.eventSeq) == 0
    ensures Numbered(Enqueue(s, op), original)
  {
    EnqueueAddsOne(s, op);
    AddingKeepsNumbered(s, Enqueue(s, op), original, op);
  }

  ghost predicate AddsAtMost(s: Pipe, t: Pipe, op: LogOp) {
    forall x, n :: Pending(t, x, n) == Pending(s, x, n) ||
                   (op.Create? && x == op.row.taskId && n == op.row.eventSeq && Pending(t, x, n) == Pending(s, x, n) + 1)
  }

  lemma EnqueueAddsOne(s: Pipe, op: LogOp)
    ensures AddsAtMost(s, Enqueue(s, op), op)
  {
    var t := Enqueue(s, op);
    forall x, n
      ensures Pending(t, x, n) == Pending(s, x, n) ||
              (op.Create? && x == op.row.taskId && n == op.row.eventSeq && Pending(t, x, n) == Pending(s, x, n) + 1)
    {
      CountOpsSplit(s.queue, [op], x, n);
      CountOpsSplit(s.blocked, [op], x, n);
      CountOne(op, x, n);
    }
    hide Pending, Enqueue;
  }

  lemma CountOne(op: LogOp, x: string, n: int)
    ensures CountOps([op], x, n) == if op.Create? && x == op.row.taskId && n == op.row.eventSeq then 1 else 0
  {
    assert [op][..0] == [];
  }

  lemma AddingKeepsNumbered(s: Pipe, t: Pipe, original: seq<Row>, op: LogOp)
    requires Numbered(s, original) && AddsAtMost(s, t, op)
    requires t.numbers == s.numbers && t.table == s.table && t.handedOut == s.handedOut && t.query == s.query
    requires op.Create? ==>
               && op.row.taskId in s.numbers && op.row.eventSeq <= s.numbers[op.row.taskId]
               && Pending(s, op.row.taskId, op.row.eventSeq) == 0 && CountRows(s.table, op.row.taskId, op.row.eventSeq) == 0
    ensures Numbered(t, original)
  {
    hide Pending, CountRows;
  }

  lemma SubmitKeepsNumbered(s: Pipe, original: seq<Row>, e: Emission)
    requires Numbered(s, original) && e.taskId in s.numbers
    ensures Numbered(Submit(s, e), original)
  {
    NewNumberIsFree(s, original, e.taskId);
    NumberKeepsNumbered(s, original, e.taskId);
    hide Numbered, Pending, CountRows;
    EnqueueKeepsNumbered(Number(s, e.taskId), original, Create(Row(e.id, e.taskId, NextNumber(s, e.taskId), e.fields), e.priority));
  }

  lemma AskStepKeepsNumbered(s: Pipe, original: seq<Row>, i: nat)
    requires Numbered(s, original) && i < |s.waiting| && s.query.None?
    ensures Numbered(Ask(s, i), original)
  {
    var e, left := s.waiting[i], s.waiting[..i] + s.waiting[i + 1..];
    if e.taskId in s.numbers {
      SamePendingKeepsNumbered(s, s.(waiting := left), original);
      SubmitKeepsNumbered(s.(waiting := left), original, e);
    } else {
      AskKeepsNumbered(s, original, e, left);
    }
  }

  lemma AnswerStepKeepsNumbered(s: Pipe, original: seq<Row>, succeeds: bool)
    requires Numbered(s, original) && s.query.Some?
    ensures Numbered(Answer(s, succeeds), original)
  {
    AnswerKeepsNumbered(s, original);
    hide Numbered;
    if succeeds {
      var q := s.query.value;
      SubmitKeepsNumbered(s.(query := None, numbers := s.numbers[q.emission.taskId := q.max]), original, q.emission);
    }
  }

  lemma StartKeepsNumbered(s: Pipe, original: seq<Row>)
    requires Numbered(s, original)
    ensures Numbered(EnsureStarted(s), original)
  {
    assert (s.workers + [Idle])[..|s.workers|] == s.workers;
    SamePendingKeepsNumbered(s, EnsureStarted(s), original);
  }

  lemma UnblockKeepsPending(s: Pipe, i: nat)
    ensures SamePending(s, Step(s, Unblock(i)))
  {
    if i < |s.blocked| && !s.Full() {
      forall x, n ensures Pending(Step(s, Unblock(i)), x, n) == Pending(s, x, n) {
        MovingKeepsCount(s.queue, s.blocked, i, x, n);
        hide CountOps, CountInFlight;
      }
    }
  }

  lemma MovingKeepsCount(queue: seq<LogOp>, blocked: seq<LogOp>, i: nat, x: string, n: int)
    requires i < |blocked|
    ensures CountOps(queue + [blocked[i]], x, n) + CountOps(blocked[..i] + blocked[i + 1..], x, n)
            == CountOps(queue, x, n) + CountOps(blocked, x, n)
  {
    hide CountOps;
    var op := blocked[i];
    CountOpsSplit(queue, [op], x, n);
    CountOpsSplit(blocked[..i], blocked[i + 1..], x, n);
    CountOpsSplit(blocked[..i], [op], x, n);
    CountOpsSplit(blocked[..i] + [op], blocked[i + 1..], x, n);
    assert blocked == blocked[..i] + [op] + blocked[i + 1..];
  }

  lemma TakeKeepsPending(s: Pipe, w: nat)
    ensures SamePending(s, Step(s, TakeFirst(w)))
  {
    if w < |s.workers| && s.workers[w].Idle? && s.queue != [] {
      forall x, n ensures Pending(Step(s, TakeFirst(w)), x, n) == Pending(s, x, n) {
        WorkersChange(s.workers, w, Filling([s.queue[0]]), x, n);
        CountOpsSplit([s.queue[0]], s.queue[1..], x, n);
        assert s.queue == [s.queue[0]] + s.queue[1..];
      }
    }
  }

  lemma FillKeepsPending(s: Pipe, w: nat)
    ensures SamePending(s, Step(s, FillBatch(w)))
  {
    if w < |s.workers| && s.workers[w].Filling? {
      var k := Extra(s, |s.workers[w].batch|);
      forall x, n ensures Pending(Step(s, FillBatch(w)), x, n) == Pending(s, x, n) {
        WorkersChange(s.workers, w, Flushing(s.workers[w].batch + s.queue[..k]), x, n);
        CountOpsSplit(s.workers[w].batch, s.queue[..k], x, n);
        CountOpsSplit(s.queue[..k], s.queue[k..], x, n);
        assert s.queue == s.queue[..k] + s.queue[k..];
      }
    }
  }

  lemma ExitKeepsPending(s: Pipe, w: nat)
    ensures SamePending(s, Step(s, Exit(w)))
  {
    if w < |s.workers| && s.workers[w].Idle? {
      forall x, n ensures Pending(Step(s, Exit(w)), x, n) == Pending(s, x, n) {
        IdleWorkerLeaves(s.workers, w, x, n);
      }
    }
  }

  /** A committed batch moves its numbers from pending to the table, a failed one drops them. */
  lemma FlushKeepsNumbered(s: Pipe, original: seq<Row>, w: nat, commits: bool)
    requires Numbered(s, original)
    ensures Numbered(Step(s, Flush(w, commits)), original)
  {
    if w < |s.workers| && s.workers[w].Flushing? {
      var t, batch := Step(s, Flush(w, commits)), s.workers[w].batch;
      forall x, n
        ensures Pending(t, x, n) + CountOps(batch, x, n) == Pending(s, x, n)
        ensures CountRows(t.table, x, n) == CountRows(s.table, x, n) + if commits then CountOps(batch, x, n) else 0
      {
        WorkersChange(s.workers, w, Idle, x, n);
        FlushAddsCounts(s.table, batch, x, n);
      }
      FlushArithmetic(s, t, original, batch, commits);
    }
  }

  lemma FlushArithmetic(s: Pipe, t: Pipe, original: seq<Row>, batch: seq<LogOp>, commits: bool)
    requires Numbered(s, original) && t.numbers == s.numbers && t.handedOut == s.handedOut && t.query == s.query
    requires forall x, n :: Pending(t, x, n) + CountOps(batch, x, n) == Pending(s, x, n)
    requires forall x, n :: CountRows(t.table, x, n) == CountRows(s.table, x, n) + if commits then CountOps(batch, x, n) else 0
    ensures Numbered(t, original)
  {
    hide Pending, CountRows, CountOps;
  }

  lemma StepKeepsNumbered(s: Pipe, original: seq<Row>, e: Event)
    requires Numbered(s, original)
    ensures Numbered(Step(s, e), original)
  {
    match e
    case StartUp => StartKeepsNumbered(s, original);
    case EmitCreate(e) => CallKeepsNumbered(s, original, e);
    case AskNumber(i) =>
      if i < |s.waiting| && s.query.None? {
        AskStepKeepsNumbered(s, original, i);
      }
    case TableAnswers(succeeds) =>
      if s.query.Some? {
        AnswerStepKeepsNumbered(s, original, succeeds);
      }
    case EmitUpdate(id, updates, priority) =>
      StartKeepsNumbered(s, original);
      EnqueueKeepsNumbered(EnsureStarted(s), original, Update(id, updates, priority));
    case Flush(w, commits) => FlushKeepsNumbered(s, original, w, commits);
    case Restart => RestartKeepsNumbered(s, original);
    case _ => QuietStepKeepsNumbered(s, original, e);
  }

  lemma CallKeepsNumbered(s: Pipe, original: seq<Row>, e: Emission)
    requires Numbered(s, original)
    ensures Numbered(Step(s, EmitCreate(e)), original)
  {
    StartKeepsNumbered(s, original);
    SamePendingKeepsNumbered(EnsureStarted(s), Step(s, EmitCreate(e)), original);
  }

  lemma RestartKeepsNumbered(s: Pipe, original: seq<Row>)
    requires Numbered(s, original)
    ensures Numbered(Step(s, Restart), original)
  {
    assert forall x, n :: Pending(Step(s, Restart), x, n) == 0;
    hide Pending, CountRows;
  }

  /** Steps that neither number nor commit anything. */
  lemma QuietStepKeepsNumbered(s: Pipe, original: seq<Row>, e: Event)
    requires Numbered(s, original)
    requires e.Unblock? || e.TakeFirst? || e.FillBatch? || e.Stop? || e.Exit?
    ensures Numbered(Step(s, e), original)
  {
    match e {
      case Unblock(i) => UnblockKeepsPending(s, i);
      case TakeFirst(w) => TakeKeepsPending(s, w);
      case FillBatch(w) => FillKeepsPending(s, w);
      case Stop =>
      case Exit(w) => ExitKeepsPending(s, w);
    }
    hide Numbered, Pending;
    StopKeepsPending(s);
    SamePendingKeepsNumbered(s, Step(s, e), original);
  }

  lemma StopKeepsPending(s: Pipe)
    ensures SamePending(s, Step(s, Stop))
  {
  }

  /**
   * In every run, across drops, failed batches, second workers and restarts, no row that lands repeats the number of
   * another row of its task; and the numbers of a task that the current process handed out grow in that order.
   */
  lemma {:induction false} NumbersStayUnique(capacity: int, batchSize: int, table: seq<Row>, events: seq<Event>)
    ensures var s := Run(Created(capacity, batchSize, table), events);
            && Numbered(s, table)
            && (forall i, j :: 0 <= i < j < |s.handedOut| && s.handedOut[i].0 == s.handedOut[j].0 ==>
                  s.handedOut[i].1 < s.handedOut[j].1)
            && (forall t, n :: CountRows(s.table, t, n) == CountRows(table, t, n) ||
                               (CountRows(table, t, n) == 0 && CountRows(s.table, t, n) == 1))
  {
    if events != [] {
      NumbersStayUnique(capacity, batchSize, table, events[..|events| - 1]);
      StepKeepsNumbered(Run(Created(capacity, batchSize, table), events[..|events| - 1]), table, Last(events));
    }
  }
}
