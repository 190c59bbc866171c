/**
 * Event numbers over the whole history of a log table, process after process: which numbers of a task can still be
 * handed out, and which never will be again.
 */
module LogHistory {
  import opened Prelude
  import opened TaskLogPipeline
  import opened LogNumbers
  import opened LogOrder

  /** The number that a step hands out, if any. */
  function Handed(s: Pipe, e: Event): seq<(string, int)> {
    match e
    case AskNumber(i) =>
      if i < |s.waiting| && s.query.None? && s.waiting[i].taskId in s.numbers then
        [(s.waiting[i].taskId, NextNumber(s, s.waiting[i].taskId))]
      else []
    case TableAnswers(succeeds) =>
      if s.query.Some? && succeeds then [(s.query.value.emission.taskId, s.query.value.max + 1)] else []
    case _ => []
  }

  /** Every number that a run hands out, in this order, restarts included. */
  function NumbersOf(s: Pipe, events: seq<Event>): seq<(string, int)> {
    if events == [] then [] else
      NumbersOf(s, events[..|events| - 1]) + Handed(Run(s, events[..|events| - 1]), Last(events))
  }

  lemma HandedIsRecorded(s: Pipe, e: Event)
    ensures Step(s, e).handedOut == if e.Restart? then [] else s.handedOut + Handed(s, e)
  {
    hide ApplyAll, MaxEventSeq;
    assert s.handedOut + [] == s.handedOut;
  }

  predicate OneProcess(events: seq<Event>) {
    forall e :: e in events ==> !e.Restart?
  }

  lemma {:induction false} HistoryOfProcess(s: Pipe, events: seq<Event>)
    requires OneProcess(events)
    ensures Run(s, events).handedOut == s.handedOut + NumbersOf(s, events)
  {
    hide Step, Handed;
    if events == [] {
      assert s.handedOut + [] == s.handedOut;
    } else {
      var init := events[..|events| - 1];
      assert events == init + [Last(events)];
      HistoryOfProcess(s, init);
      HandedIsRecorded(Run(s, init), Last(events));
      assert s.handedOut + (NumbersOf(s, init) + Handed(Run(s, init), Last(events)))
             == s.handedOut + NumbersOf(s, init) + Handed(Run(s, init), Last(events));
    }
  }

  lemma {:induction false} NumbersSplit(s: Pipe, a: seq<Event>, b: seq<Event>)
    ensures NumbersOf(s, a + b) == NumbersOf(s, a) + NumbersOf(Run(s, a), b)
  {
    hide Step, Handed, Run;
    if b == [] {
      assert a + b == a;
    } else {
      var init, e := b[..|b| - 1], Last(b);
      NumbersSplit(s, a, init);
      RunSplit(s, a, init);
      assert (a + b)[..|a + b| - 1] == a + init && Last(a + b) == e;
      assert NumbersOf(s, a) + (NumbersOf(Run(s, a), init) + Handed(Run(s, a + init), e))
             == NumbersOf(s, a) + NumbersOf(Run(s, a), init) + Handed(Run(s, a + init), e);
    }
  }

  // ---------------------------------------------------------------- the largest number in the table never falls

  ghost predicate NoRows(table: seq<Row>, t: string) {
    forall n :: CountRows(table, t, n) == 0
  }

  lemma {:induction false} RowCounts(table: seq<Row>, row: Row)
    requires row in table
    ensures CountRows(table, row.taskId, row.eventSeq) > 0
  {
    if Last(table) != row {
      assert table == table[..|table| - 1] + [Last(table)];
      RowCounts(table[..|table| - 1], row);
    }
  }

  lemma {:induction false} MaxIsAttained(table: seq<Row>, t: string)
    ensures NoRows(table, t) ==> MaxEventSeq(table, t) == 0
    ensures !NoRows(table, t) ==> CountRows(table, t, MaxEventSeq(table, t)) > 0
  {
    if exists row :: row in table && row.taskId == t && row.eventSeq == MaxEventSeq(table, t) {
      var row :| row in table && row.taskId == t && row.eventSeq == MaxEventSeq(table, t);
      RowCounts(table, row);
    } else if !NoRows(table, t) {
      var n :| CountRows(table, t, n) > 0;
      var i := RowWithNumber(table, t, n);
      OneRowGivesMax(table, t, i);
    }
  }

  lemma {:induction false} OneRowGivesMax(table: seq<Row>, t: string, i: nat)
    requires i < |table| && table[i].taskId == t
    ensures exists row :: row in table && row.taskId == t && row.eventSeq == MaxEventSeq(table, t)
  {
    var init, row := table[..|table| - 1], Last(table);
    assert table == init + [row];
    if i < |init| {
      OneRowGivesMax(init, t, i);
      var r :| r in init && r.taskId == t && r.eventSeq == MaxEventSeq(init, t);
      assert r in table && row in table;
    } else if exists r :: r in init && r.taskId == t {
      var r :| r in init && r.taskId == t;
      var j :| 0 <= j < |init| && init[j] == r;
      OneRowGivesMax(init, t, j);
      var m :| m in init && m.taskId == t && m.eventSeq == MaxEventSeq(init, t);
      assert m in table && row in table;
    } else {
      assert row in table && MaxEventSeq(table, t) == row.eventSeq;
    }
  }

  lemma MaxGrowsWithCounts(table: seq<Row>, later: seq<Row>, t: string)
    requires forall n :: CountRows(later, t, n) >= CountRows(table, t, n)
    requires NoRows(table, t) ==> forall n :: CountRows(later, t, n) > 0 ==> n > 0
    ensures MaxEventSeq(later, t) >= MaxEventSeq(table, t)
  {
    MaxIsAttained(table, t);
    MaxIsAttained(later, t);
    hide CountRows, MaxEventSeq;
    if !NoRows(table, t) {
      RowsAreBelowMax(later, t, MaxEventSeq(table, t));
    }
  }

  /** A task without rows has been given positive numbers only. */
  ghost predicate Positive(s: Pipe) {
    && (forall t :: t in s.numbers && NoRows(s.table, t) ==> s.numbers[t] >= 0)
    && (forall t, n :: Pending(s, t, n) > 0 && NoRows(s.table, t) ==> n > 0)
    && (s.query.Some? && NoRows(s.table, s.query.value.emission.taskId) ==> s.query.value.max >= 0)
  }

  lemma NoMoreKeepsPositive(s: Pipe, t: Pipe)
    requires Positive(s) && t.numbers == s.numbers && (t.query == s.query || t.query == None)
    requires forall x, n :: Pending(t, x, n) <= Pending(s, x, n)
    requires forall x, n :: CountRows(t.table, x, n) >= CountRows(s.table, x, n)
    ensures Positive(t)
  {
    hide Pending, CountRows;
    forall x | NoRows(t.table, x) ensures NoRows(s.table, x) {
      forall n ensures CountRows(s.table, x, n) == 0 {
        assert CountRows(t.table, x, n) == 0;
      }
    }
  }

  lemma SubmitKeepsPositive(s: Pipe, e: Emission)
    requires Positive(s) && e.taskId in s.numbers
    ensures Positive(Submit(s, e))
  {
    var op := Create(Row(e.id, e.taskId, NextNumber(s, e.taskId), e.fields), e.priority);
    var numbered := Number(s, e.taskId);
    var t := Submit(s, e);
    EnqueueAddsOne(numbered, op);
    assert t == Enqueue(numbered, op);
    assert forall x, n :: Pending(numbered, x, n) == Pending(s, x, n);
    assert t.numbers == numbered.numbers && t.table == s.table && t.query == s.query;
    hide Pending, NoRows, Enqueue;
  }

  lemma SameCounts(s: Pipe, t: Pipe)
    requires SamePending(s, t) && t.table == s.table
    ensures forall x, n :: Pending(t, x, n) <= Pending(s, x, n)
    ensures forall x, n :: CountRows(t.table, x, n) >= CountRows(s.table, x, n)
  {
    hide Pending, CountRows;
  }

  lemma AskKeepsPositive(s: Pipe, i: nat)
    requires Positive(s) && i < |s.waiting| && s.query.None?
    ensures Positive(Ask(s, i))
  {
    var e, left := s.waiting[i], s.(waiting := s.waiting[..i] + s.waiting[i + 1..]);
    assert SamePending(s, left);
    hide Pending, CountRows;
    SameCounts(s, left);
    NoMoreKeepsPositive(s, left);
    if e.taskId in s.numbers {
      SubmitKeepsPositive(left, e);
    } else {
      MaxIsAttained(s.table, e.taskId);
      AskingKeepsPending(s, left, e);
    }
  }

  lemma AskingKeepsPending(s: Pipe, left: Pipe, e: Emission)
    requires Positive(left) && left.table == s.table
    requires NoRows(s.table, e.taskId) ==> MaxEventSeq(s.table, e.taskId) == 0
    ensures Positive(left.(query := Some(Query(e, MaxEventSeq(s.table, e.taskId)))))
  {
    var t := left.(query := Some(Query(e, MaxEventSeq(s.table, e.taskId))));
    assert forall x, n :: Pending(t, x, n) == Pending(left, x, n);
    hide Pending, NoRows, MaxEventSeq;
  }

  lemma AnswerKeepsPositive(s: Pipe, succeeds: bool)
    requires Positive(s) && s.query.Some?
    ensures Positive(Answer(s, succeeds))
  {
    var q := s.query.value;
    var released, cached := s.(query := None), s.(query := None, numbers := s.numbers[q.emission.taskId := q.max]);
    assert forall x, n :: Pending(released, x, n) == Pending(s, x, n);
    assert forall x, n :: Pending(cached, x, n) == Pending(s, x, n);
    hide Pending, NoRows;
    if succeeds {
      SubmitKeepsPositive(cached, q.emission);
    }
  }

  lemma FlushCounts(s: Pipe, w: nat, commits: bool)
    requires w < |s.workers| && s.workers[w].Flushing?
    ensures var t := Step(s, Flush(w, commits));
            && (forall x, n :: Pending(t, x, n) <= Pending(s, x, n))
            && (forall x, n :: CountRows(s.table, x, n) <= CountRows(t.table, x, n) <= CountRows(s.table, x, n) + Pending(s, x, n))
  {
    var t, batch := Step(s, Flush(w, commits)), s.workers[w].batch;
    forall x, n
      ensures Pending(t, x, n) + CountOps(batch, x, n) == Pending(s, x, n)
      ensures CountRows(t.table, x, n) == CountRows(s.table, x, n) + if commits then CountOps(batch, x, n) else 0
    {
      WorkersChange(s.workers, w, Idle, x, n);
      FlushAddsCounts(s.table, batch, x, n);
    }
    hide Pending, CountRows, CountOps;
  }

  /** Steps that hand out no number and write nothing. */
  predicate Quiet(e: Event) {
    e.StartUp? || e.EmitCreate? || e.EmitUpdate? || e.Unblock? || e.TakeFirst? || e.FillBatch? || e.Stop? || e.Exit?
  }

  lemma QuietKeepsPending(s: Pipe, e: Event)
    requires Quiet(e)
    ensures SamePending(s, Step(s, e))
  {
    hide Pending, CountOps, CountInFlight;
    match e
    case StartUp => StartKeepsPending(s);
    case EmitCreate(e) => CallKeepsPending(s, e);
    case EmitUpdate(id, updates, priority) =>
      StartKeepsPending(s);
      EnqueueAddsOne(EnsureStarted(s), Update(id, updates, priority));
    case Unblock(i) => UnblockKeepsPending(s, i);
    case TakeFirst(w) => TakeKeepsPending(s, w);
    case FillBatch(w) => FillKeepsPending(s, w);
    case Stop => StopKeepsPending(s);
    case Exit(w) => ExitKeepsPending(s, w);
  }

  lemma CallKeepsPending(s: Pipe, e: Emission)
    ensures SamePending(s, Step(s, EmitCreate(e)))
  {
    StartKeepsPending(s);
    assert forall x, n :: Pending(Step(s, EmitCreate(e)), x, n) == Pending(EnsureStarted(s), x, n);
    hide Pending;
  }

  lemma QuietKeepsRest(s: Pipe, e: Event)
    requires Quiet(e)
    ensures var t := Step(s, e); t.numbers == s.numbers && t.table == s.table && t.query == s.query
  {
  }

  lemma StartKeepsPending(s: Pipe)
    ensures SamePending(s, EnsureStarted(s))
  {
    assert (s.workers + [Idle])[..|s.workers|] == s.workers;
  }

  lemma StepKeepsPositive(s: Pipe, e: Event)
    requires Positive(s)
    ensures Positive(Step(s, e))
  {
    match e
    case AskNumber(i) => if i < |s.waiting| && s.query.None? { AskKeepsPositive(s, i); }
    case TableAnswers(succeeds) => if s.query.Some? { AnswerKeepsPositive(s, succeeds); }
    case Flush(w, commits) =>
      if w < |s.workers| && s.workers[w].Flushing? {
        FlushCounts(s, w, commits);
        hide Pending, CountRows, Positive;
        NoMoreKeepsPositive(s, Step(s, e));
      }
    case Restart =>
    case _ =>
      QuietKeepsPending(s, e);
      QuietKeepsRest(s, e);
      hide Step, Pending, CountRows, Positive, SamePending;
      SameCounts(s, Step(s, e));
      NoMoreKeepsPositive(s, Step(s, e));
  }

  /** No step lowers the largest number of a task in the table. */
  lemma StepKeepsMax(s: Pipe, e: Event, t: string)
    requires Positive(s)
    ensures MaxEventSeq(Step(s, e).table, t) >= MaxEventSeq(s.table, t)
    ensures forall n :: CountRows(Step(s, e).table, t, n) >= CountRows(s.table, t, n)
  {
    if e.Flush? && e.w < |s.workers| && s.workers[e.w].Flushing? {
      FlushCounts(s, e.w, e.commits);
      hide Step, Pending, CountRows, MaxEventSeq;
      MaxGrowsWithCounts(s.table, Step(s, e).table, t);
    } else {
      OnlyFlushesWrite(s, e);
    }
  }

  lemma OnlyFlushesWrite(s: Pipe, e: Event)
    requires !(e.Flush? && e.w < |s.workers| && s.workers[e.w].Flushing?)
    ensures Step(s, e).table == s.table
  {
    hide MaxEventSeq, ApplyAll;
  }

  // ---------------------------------------------------------------- later numbers are above what has landed

  ghost predicate Sound(s: Pipe, original: seq<Row>) {
    Numbered(s, original) && Positive(s)
  }

  lemma StepKeepsSound(s: Pipe, original: seq<Row>, e: Event)
    requires Sound(s, original)
    ensures Sound(Step(s, e), original)
  {
    hide Numbered, Positive, Step;
    StepKeepsNumbered(s, original, e);
    StepKeepsPositive(s, e);
  }

  lemma NewProcessIsSound(capacity: int, batchSize: int, table: seq<Row>)
    ensures Sound(Created(capacity, batchSize, table), table)
  {
  }

  lemma {:induction false} RunKeepsSound(s: Pipe, original: seq<Row>, events: seq<Event>)
    requires Sound(s, original)
    ensures Sound(Run(s, events), original)
  {
    if events != [] {
      RunKeepsSound(s, original, events[..|events| - 1]);
      StepKeepsSound(Run(s, events[..|events| - 1]), original, Last(events));
    }
    hide Sound, Step;
  }

  lemma {:induction false} RunKeepsMax(s: Pipe, original: seq<Row>, events: seq<Event>, t: string)
    requires Sound(s, original)
    ensures MaxEventSeq(Run(s, events).table, t) >= MaxEventSeq(s.table, t)
    ensures forall n :: CountRows(Run(s, events).table, t, n) >= CountRows(s.table, t, n)
  {
    hide Step, MaxEventSeq, CountRows, Numbered, Positive;
    if events != [] {
      var init := events[..|events| - 1];
      RunKeepsMax(s, original, init, t);
      RunKeepsSound(s, original, init);
      StepKeepsMax(Run(s, init), Last(events), t);
    }
  }

  /** A step hands out only numbers above everything of the task in the table. */
  lemma HandedIsAboveMax(s: Pipe, original: seq<Row>, e: Event, t: string, m: int)
    requires Sound(s, original) && (t, m) in Handed(s, e)
    ensures m > MaxEventSeq(s.table, t)
  {
    MaxIsAttained(s.table, t);
    hide CountRows, MaxEventSeq, Pending;
  }

  /** Whatever happens, restarts included, later numbers of a task are above everything of it in the table now. */
  lemma {:induction false} LaterIsAboveMax(s: Pipe, original: seq<Row>, events: seq<Event>, t: string, m: int)
    requires Sound(s, original) && (t, m) in NumbersOf(s, events)
    ensures m > MaxEventSeq(s.table, t)
  {
    hide Step, Handed, MaxEventSeq, Sound;
    var init := events[..|events| - 1];
    if (t, m) in NumbersOf(s, init) {
      LaterIsAboveMax(s, original, init, t, m);
    } else {
      RunKeepsSound(s, original, init);
      HandedIsAboveMax(Run(s, init), original, Last(events), t, m);
      RunKeepsMax(s, original, init, t);
    }
  }

  /**
   * Over the whole history, through drops, failed batches and restarts: a row that has landed stays, and every
   * number of its task that is handed out later, by whatever process, is above its number.
   */
  lemma LaterNumbersExceedLanded(capacity: int, batchSize: int, table: seq<Row>, events: seq<Event>, more: seq<Event>,
                                 t: string, n: int)
    requires CountRows(Run(Created(capacity, batchSize, table), events).table, t, n) > 0
    ensures var s := Run(Created(capacity, batchSize, table), events);
            && CountRows(Run(s, more).table, t, n) > 0
            && forall m :: (t, m) in NumbersOf(s, more) ==> m > n
  {
    var s := Run(Created(capacity, batchSize, table), events);
    NewProcessIsSound(capacity, batchSize, table);
    RunKeepsSound(Created(capacity, batchSize, table), table, events);
    RunKeepsMax(s, table, more, t);
    RowsAreBelowMax(s.table, t, n);
    hide Run, CountRows, NumbersOf, MaxEventSeq;
    forall m | (t, m) in NumbersOf(s, more) ensures m > n {
      LaterIsAboveMax(s, table, more, t, m);
    }
  }

  /** Within one process a number is above every earlier one of its task, landed or not. */
  lemma NumbersGrowInOneProcess(capacity: int, batchSize: int, table: seq<Row>, events: seq<Event>, more: seq<Event>,
                                t: string, n: int, m: int)
    requires OneProcess(more)
    requires (t, n) in Run(Created(capacity, batchSize, table), events).handedOut
    requires (t, m) in NumbersOf(Run(Created(capacity, batchSize, table), events), more)
    ensures m > n
  {
    var s := Run(Created(capacity, batchSize, table), events);
    RunSplit(Created(capacity, batchSize, table), events, more);
    NumbersStayUnique(capacity, batchSize, table, events + more);
    HistoryOfProcess(s, more);
    hide Run, NumbersOf, Numbered, CountRows;
    var all := s.handedOut + NumbersOf(s, more);
    var i :| 0 <= i < |s.handedOut| && s.handedOut[i] == (t, n);
    var j :| 0 <= j < |NumbersOf(s, more)| && NumbersOf(s, more)[j] == (t, m);
    assert all[i] == (t, n) && all[|s.handedOut| + j] == (t, m);
  }

  // ---------------------------------------------------------------- which numbers can be handed out again

  predicate CountsFrom(s: Pipe, t: string, n: int) {
    s.waiting == [] && s.query.None? && t in s.numbers && s.numbers[t] == n
  }

  function SomeEmission(t: string): Emission {
    Emission("", t, map[], Low)
  }

  lemma NumbersOfOne(s: Pipe, e: Event)
    ensures NumbersOf(s, [e]) == Handed(s, e)
  {
    assert [e][..0] == [];
    assert NumbersOf(s, []) == [] && Run(s, []) == s;
    hide Handed;
  }

  lemma FoundLater(s: Pipe, e: Event, events: seq<Event>, t: string, n: int)
    requires (t, n) in NumbersOf(Step(s, e), events)
    ensures (t, n) in NumbersOf(s, [e] + events)
  {
    hide *;
    RunOne(s, e);
    NumbersSplit(s, [e], events);
  }

  lemma NextCount(s: Pipe, t: string, n: int)
    requires CountsFrom(s, t, n)
    ensures var asking := Step(s, EmitCreate(SomeEmission(t)));
            && Handed(asking, AskNumber(0)) == [(t, n + 1)]
            && CountsFrom(Step(asking, AskNumber(0)), t, n + 1)
  {
    hide MaxEventSeq;
    var asking := Step(s, EmitCreate(SomeEmission(t)));
    assert asking.waiting == [SomeEmission(t)];
    assert asking.waiting[..0] + asking.waiting[0 + 1..] == [];
  }

  lemma {:induction false} CountUp(s: Pipe, t: string, n: int, goal: int) returns (events: seq<Event>)
    requires CountsFrom(s, t, n) && n < goal
    ensures (t, goal) in NumbersOf(s, events)
    decreases goal - n
  {
    hide *;
    NextCount(s, t, n);
    var asking := Step(s, EmitCreate(SomeEmission(t)));
    if n + 1 < goal {
      events := CountUp(Step(asking, AskNumber(0)), t, n + 1, goal);
      FoundLater(asking, AskNumber(0), events, t, goal);
      events := [AskNumber(0)] + events;
    } else {
      NumbersOfOne(asking, AskNumber(0));
      events := [AskNumber(0)];
    }
    FoundLater(s, EmitCreate(SomeEmission(t)), events, t, goal);
    events := [EmitCreate(SomeEmission(t))] + events;
  }

  lemma FirstCount(s: Pipe, t: string)
    ensures var asked := Step(Step(Step(s, Restart), EmitCreate(SomeEmission(t))), AskNumber(0));
            && Handed(asked, TableAnswers(true)) == [(t, MaxEventSeq(s.table, t) + 1)]
            && CountsFrom(Step(asked, TableAnswers(true)), t, MaxEventSeq(s.table, t) + 1)
  {
    AskedForNumber(Created(s.capacity, s.batchSize, s.table), SomeEmission(t));
    hide MaxEventSeq;
  }

  /**
   * From any state a run reaches, a number of a task can still be handed out exactly when it is above everything of
   * the task in the table: a restart forgets the numbers whose rows have not landed.
   */
  lemma CanBeHandedOutExactly(capacity: int, batchSize: int, table: seq<Row>, events: seq<Event>, t: string, n: int)
    ensures var s := Run(Created(capacity, batchSize, table), events);
            (exists more :: (t, n) in NumbersOf(s, more)) <==> n > MaxEventSeq(s.table, t)
  {
    hide *;
    var s := Run(Created(capacity, batchSize, table), events);
    NewProcessIsSound(capacity, batchSize, table);
    RunKeepsSound(Created(capacity, batchSize, table), table, events);
    if more :| (t, n) in NumbersOf(s, more) {
      LaterIsAboveMax(s, table, more, t, n);
    }
    if n > MaxEventSeq(s.table, t) {
      var more := HandOut(s, t, n);
    }
  }

  lemma HandOut(s: Pipe, t: string, n: int) returns (more: seq<Event>)
    requires n > MaxEventSeq(s.table, t)
    ensures (t, n) in NumbersOf(s, more)
  {
    hide *;
    FirstCount(s, t);
    var started := Step(s, Restart);
    var asking := Step(started, EmitCreate(SomeEmission(t)));
    var asked := Step(asking, AskNumber(0));
    if n > MaxEventSeq(s.table, t) + 1 {
      more := CountUp(Step(asked, TableAnswers(true)), t, MaxEventSeq(s.table, t) + 1, n);
      FoundLater(asked, TableAnswers(true), more, t, n);
      more := [TableAnswers(true)] + more;
    } else {
      NumbersOfOne(asked, TableAnswers(true));
      more := [TableAnswers(true)];
    }
    FoundLater(asking, AskNumber(0), more, t, n);
    more := [AskNumber(0)] + more;
    FoundLater(started, EmitCreate(SomeEmission(t)), more, t, n);
    more := [EmitCreate(SomeEmission(t))] + more;
    FoundLater(s, Restart, more, t, n);
    more := [Restart] + more;
  }

  /** A number that was handed out can be handed out again exactly when no row of its task with it or a higher one has landed. */
  lemma CanRepeatExactly(capacity: int, batchSize: int, table: seq<Row>, events: seq<Event>, t: string, n: int)
    requires (t, n) in NumbersOf(Created(capacity, batchSize, table), events)
    ensures var s := Run(Created(capacity, batchSize, table), events);
            (exists more :: (t, n) in NumbersOf(s, more)) <==> forall k :: k >= n ==> CountRows(s.table, t, k) == 0
  {
    hide *;
    var s0 := Created(capacity, batchSize, table);
    var s := Run(s0, events);
    CanBeHandedOutExactly(capacity, batchSize, table, events, t, n);
    NewProcessIsSound(capacity, batchSize, table);
    LaterIsAboveMax(s0, table, events, t, n);
    RunKeepsMax(s0, table, events, t);
    NewTable(capacity, batchSize, table);
    AboveMaxMeans(table, s.table, t, n);
  }

  lemma NewTable(capacity: int, batchSize: int, table: seq<Row>)
    ensures Created(capacity, batchSize, table).table == table
  {
  }

  lemma AboveMaxMeans(table: seq<Row>, later: seq<Row>, t: string, n: int)
    requires n > MaxEventSeq(table, t) && forall k :: CountRows(later, t, k) >= CountRows(table, t, k)
    ensures n > MaxEventSeq(later, t) <==> forall k :: k >= n ==> CountRows(later, t, k) == 0
  {
    MaxIsAttained(table, t);
    MaxIsAttained(later, t);
    hide CountRows, MaxEventSeq;
    forall k | CountRows(later, t, k) > 0 ensures k <= MaxEventSeq(later, t) {
      RowsAreBelowMax(later, t, k);
    }
    if NoRows(later, t) {
      forall k ensures CountRows(table, t, k) == 0 {
        assert CountRows(later, t, k) == 0;
      }
    }
  }
}
