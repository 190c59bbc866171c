/**
 * From emission to row: what every operation in the log pipeline carries, how large queue and batches get, and what an
 * accepted creation comes to in the table.
 */
module LogOrigins {
  import opened Prelude
  import opened TaskLogPipeline
  import opened LogOrder

  // ---------------------------------------------------------------- every operation comes from an emission

  /** The operation carries the id, task, fields and priority, or the updates, of an emission of the run. */
  ghost predicate Emitted(op: LogOp, events: seq<Event>) {
    match op
    case Create(row, priority) => EmitCreate(Emission(row.id, row.taskId, row.fields, priority)) in events
    case Update(id, updates, priority) => EmitUpdate(id, updates, priority) in events
  }

  ghost predicate AllEmitted(ops: seq<LogOp>, events: seq<Event>) {
    forall op :: op in ops ==> Emitted(op, events)
  }

  /** Operations and waiting calls alike come from the run. */
  ghost predicate Sourced(s: Pipe, events: seq<Event>) {
    && AllEmitted(s.queue, events) && AllEmitted(s.blocked, events) && AllEmitted(s.accepted, events)
    && (forall w :: w in s.workers ==> AllEmitted(BatchOf(w), events))
    && (forall b :: b in s.finished ==> AllEmitted(b.ops, events))
    && (forall e :: e in s.waiting ==> EmitCreate(e) in events)
    && (s.query.Some? ==> EmitCreate(s.query.value.emission) in events)
  }

  lemma LaterRunsEmitMore(s: Pipe, events: seq<Event>, e: Event)
    requires Sourced(s, events)
    ensures Sourced(s, events + [e])
  {
    assert forall x :: x in events ==> x in events + [e];
    assert forall op :: Emitted(op, events) ==> Emitted(op, events + [e]);
    hide Emitted;
  }

  lemma EnqueueKeepsSourced(s: Pipe, op: LogOp, events: seq<Event>)
    requires Sourced(s, events) && Emitted(op, events)
    ensures Sourced(Enqueue(s, op), events)
  {
    hide Emitted;
    forall x | x in s.queue + [op] || x in s.accepted + [op] || x in s.blocked + [op]
      ensures x in s.queue || x in s.accepted || x in s.blocked || x == op {
    }
  }

  lemma StartKeepsSourced(s: Pipe, events: seq<Event>)
    requires Sourced(s, events)
    ensures Sourced(EnsureStarted(s), events)
  {
    hide Emitted;
    assert forall w :: w in s.workers + [Idle] ==> w in s.workers || w == Idle;
  }

  lemma CallsKeepSourced(s: Pipe, waiting: seq<Emission>, query: Option<Query>, numbers: map<string, int>,
                         handedOut: seq<(string, int)>, events: seq<Event>)
    requires Sourced(s, events)
    requires forall e :: e in waiting ==> EmitCreate(e) in events
    requires query.Some? ==> EmitCreate(query.value.emission) in events
    ensures Sourced(s.(waiting := waiting, query := query, numbers := numbers, handedOut := handedOut), events)
  {
    hide Emitted;
  }

  /** The row that is enqueued carries what the caller gave: this is where the number is added. */
  lemma SubmitKeepsSourced(s: Pipe, e: Emission, events: seq<Event>)
    requires Sourced(s, events) && e.taskId in s.numbers && EmitCreate(e) in events
    ensures Sourced(Submit(s, e), events)
  {
    var numbered := Number(s, e.taskId);
    assert e == Emission(e.id, e.taskId, e.fields, e.priority);
    CallsKeepSourced(s, s.waiting, s.query, numbered.numbers, numbered.handedOut, events);
    hide Sourced;
    EnqueueKeepsSourced(numbered, Create(Row(e.id, e.taskId, NextNumber(s, e.taskId), e.fields), e.priority), events);
  }

  lemma AskKeepsSourced(s: Pipe, i: nat, events: seq<Event>)
    requires Sourced(s, events) && i < |s.waiting| && s.query.None?
    ensures Sourced(Ask(s, i), events)
  {
    var e, left := s.waiting[i], s.waiting[..i] + s.waiting[i + 1..];
    assert e in s.waiting && forall x :: x in left ==> x in s.waiting;
    CallsKeepSourced(s, left, None, s.numbers, s.handedOut, events);
    CallsKeepSourced(s, left, Some(Query(e, MaxEventSeq(s.table, e.taskId))), s.numbers, s.handedOut, events);
    hide Sourced;
    if e.taskId in s.numbers {
      SubmitKeepsSourced(s.(waiting := left), e, events);
    }
  }

  lemma AnswerKeepsSourced(s: Pipe, succeeds: bool, events: seq<Event>)
    requires Sourced(s, events) && s.query.Some?
    ensures Sourced(Answer(s, succeeds), events)
  {
    var q := s.query.value;
    CallsKeepSourced(s, s.waiting, None, s.numbers, s.handedOut, events);
    CallsKeepSourced(s, s.waiting, None, s.numbers[q.emission.taskId := q.max], s.handedOut, events);
    assert EmitCreate(q.emission) in events;
    hide Sourced;
    if succeeds {
      SubmitKeepsSourced(s.(query := None, numbers := s.numbers[q.emission.taskId := q.max]), q.emission, events);
    }
  }

  lemma WorkKeepsSourced(s: Pipe, e: Event, events: seq<Event>)
    requires Sourced(s, events)
    requires e.TakeFirst? || e.FillBatch? || e.Flush? || e.Exit? || e.Unblock? || e.Stop?
    ensures Sourced(Step(s, e), events)
  {
    hide Emitted, ApplyAll;
    match e
    case TakeFirst(w) =>
      if s.queue != [] { assert s.queue[0] in s.queue; }
    case FillBatch(w) =>
      if w < |s.workers| && s.workers[w].Filling? {
        assert s.workers[w] in s.workers;
        assert forall op :: op in s.workers[w].batch ==> op in BatchOf(s.workers[w]);
      }
    case Flush(w, commits) =>
      if w < |s.workers| && s.workers[w].Flushing? {
        assert s.workers[w] in s.workers && BatchOf(s.workers[w]) == s.workers[w].batch;
      }
    case Unblock(i) =>
      if i < |s.blocked| { assert s.blocked[i] in s.blocked; }
    case _ =>
  }

  lemma StepKeepsSourced(s: Pipe, e: Event, events: seq<Event>)
    requires Sourced(s, events)
    ensures Sourced(Step(s, e), events + [e])
  {
    LaterRunsEmitMore(s, events, e);
    var now := events + [e];
    assert e in now;
    match e
    case StartUp => StartKeepsSourced(s, now); hide Sourced;
    case EmitCreate(emission) =>
      StartKeepsSourced(s, now);
      assert forall x :: x in s.waiting + [emission] ==> EmitCreate(x) in now;
      CallsKeepSourced(EnsureStarted(s), s.waiting + [emission], s.query, s.numbers, s.handedOut, now);
      hide Sourced;
    case AskNumber(i) => if i < |s.waiting| && s.query.None? { AskKeepsSourced(s, i, now); } hide Sourced;
    case TableAnswers(succeeds) => if s.query.Some? { AnswerKeepsSourced(s, succeeds, now); } hide Sourced;
    case EmitUpdate(id, updates, priority) =>
      StartKeepsSourced(s, now);
      EnqueueKeepsSourced(EnsureStarted(s), Update(id, updates, priority), now);
      hide Sourced;
    case Restart =>
    case _ => WorkKeepsSourced(s, e, now); hide Sourced;
  }

  /** In every run, every operation anywhere in the pipeline carries exactly what an emission of the run gave it. */
  lemma {:induction false} EveryOperationWasEmitted(capacity: int, batchSize: int, table: seq<Row>, events: seq<Event>)
    ensures Sourced(Run(Created(capacity, batchSize, table), events), events)
  {
    if events != [] {
      var init := events[..|events| - 1];
      EveryOperationWasEmitted(capacity, batchSize, table, init);
      assert events == init + [Last(events)];
      StepKeepsSourced(Run(Created(capacity, batchSize, table), init), Last(events), init);
      hide Sourced, Step;
    }
  }

  // ---------------------------------------------------------------- every emission is somewhere

  function One(b: bool): nat {
    if b then 1 else 0
  }

  /** The operation carries the emission x. */
  predicate Carries(op: LogOp, x: Event) {
    match op
    case Create(row, priority) => x == EmitCreate(Emission(row.id, row.taskId, row.fields, priority))
    case Update(id, updates, priority) => x == EmitUpdate(id, updates, priority)
  }

  function Carrying(x: Event, ops: seq<LogOp>): nat {
    if ops == [] then 0 else Carrying(x, ops[..|ops| - 1]) + One(Carries(Last(ops), x))
  }

  function Waiting(x: Event, calls: seq<Emission>): nat {
    if calls == [] then 0 else Waiting(x, calls[..|calls| - 1]) + One(x == EmitCreate(Last(calls)))
  }

  predicate Asking(x: Event, query: Option<Query>) {
    query.Some? && x == EmitCreate(query.value.emission)
  }

  /** How often the current process was given the emission x. */
  function TimesEmitted(x: Event, events: seq<Event>): nat {
    if events == [] then 0
    else if Last(events).Restart? then 0
    else TimesEmitted(x, events[..|events| - 1]) + One(Last(events) == x)
  }

  /** The step gives x up: the call's query fails, or the call has low priority and meets a full queue. */
  predicate GivesUp(x: Event, s: Pipe, e: Event) {
    match e
    case EmitUpdate(_, _, priority) => x == e && s.Full() && priority.Low?
    case AskNumber(i) =>
      && i < |s.waiting| && s.query.None? && x == EmitCreate(s.waiting[i])
      && s.waiting[i].taskId in s.numbers && s.Full() && s.waiting[i].priority.Low?
    case TableAnswers(succeeds) => Asking(x, s.query) && (!succeeds || (s.Full() && s.query.value.emission.priority.Low?))
    case _ => false
  }

  function TimesGivenUp(x: Event, s: Pipe, events: seq<Event>): nat {
    if events == [] then 0
    else if Last(events).Restart? then 0
    else TimesGivenUp(x, s, events[..|events| - 1]) + One(GivesUp(x, Run(s, events[..|events| - 1]), Last(events)))
  }

  /** How often x is in one of the places of the process. */
  function TimesKept(x: Event, s: Pipe): nat {
    Waiting(x, s.waiting) + One(Asking(x, s.query)) + Carrying(x, s.blocked) + Carrying(x, s.accepted)
  }

  lemma CarryingAdd(x: Event, ops: seq<LogOp>, op: LogOp)
    ensures Carrying(x, ops + [op]) == Carrying(x, ops) + One(Carries(op, x))
  {
    assert (ops + [op])[..|ops|] == ops;
    hide Carries;
  }

  lemma WaitingAdd(x: Event, calls: seq<Emission>, e: Emission)
    ensures Waiting(x, calls + [e]) == Waiting(x, calls) + One(x == EmitCreate(e))
  {
    assert (calls + [e])[..|calls|] == calls;
  }

  lemma {:induction false} CarryingWithout(x: Event, ops: seq<LogOp>, i: nat)
    requires i < |ops|
    ensures Carrying(x, ops) == Carrying(x, ops[..i] + ops[i + 1..]) + One(Carries(ops[i], x))
  {
    hide *;
    var init, last := ops[..|ops| - 1], ops[|ops| - 1];
    assert ops == init + [last];
    CarryingAdd(x, init, last);
    if i < |init| {
      CarryingWithout(x, init, i);
      CarryingAdd(x, init[..i] + init[i + 1..], last);
      assert ops[..i] + ops[i + 1..] == init[..i] + init[i + 1..] + [last];
    } else {
      assert ops[..i] + ops[i + 1..] == init;
    }
  }

  lemma {:induction false} WaitingWithout(x: Event, calls: seq<Emission>, i: nat)
    requires i < |calls|
    ensures Waiting(x, calls) == Waiting(x, calls[..i] + calls[i + 1..]) + One(x == EmitCreate(calls[i]))
  {
    hide *;
    var init, last := calls[..|calls| - 1], calls[|calls| - 1];
    assert calls == init + [last];
    WaitingAdd(x, init, last);
    if i < |init| {
      WaitingWithout(x, init, i);
      WaitingAdd(x, init[..i] + init[i + 1..], last);
      assert calls[..i] + calls[i + 1..] == init[..i] + init[i + 1..] + [last];
    } else {
      assert calls[..i] + calls[i + 1..] == init;
    }
  }

  lemma EnqueueKeepsCall(x: Event, s: Pipe, op: LogOp)
    ensures TimesKept(x, Enqueue(s, op)) + One(Carries(op, x) && s.Full() && op.priority.Low?) == TimesKept(x, s) + One(Carries(op, x))
  {
    CarryingAdd(x, s.accepted, op);
    CarryingAdd(x, s.blocked, op);
    hide Carrying, Waiting, Asking, Carries;
  }

  lemma SubmitKeepsCall(x: Event, s: Pipe, e: Emission)
    requires e.taskId in s.numbers
    ensures TimesKept(x, Submit(s, e)) + One(x == EmitCreate(e) && s.Full() && e.priority.Low?) == TimesKept(x, s) + One(x == EmitCreate(e))
  {
    EnqueueKeepsCall(x, Number(s, e.taskId), Create(Row(e.id, e.taskId, NextNumber(s, e.taskId), e.fields), e.priority));
    assert Emission(e.id, e.taskId, e.fields, e.priority) == e;
    assert TimesKept(x, Number(s, e.taskId)) == TimesKept(x, s);
    hide TimesKept, Enqueue;
  }

  lemma AskKeepsCall(x: Event, s: Pipe, i: nat)
    requires i < |s.waiting| && s.query.None?
    ensures TimesKept(x, Ask(s, i)) + One(GivesUp(x, s, AskNumber(i))) == TimesKept(x, s)
  {
    var e, left := s.waiting[i], s.(waiting := s.waiting[..i] + s.waiting[i + 1..]);
    hide Submit, Carrying, Waiting, MaxEventSeq;
    WaitingWithout(x, s.waiting, i);
    if e.taskId in s.numbers {
      SubmitKeepsCall(x, left, e);
    }
  }

  lemma AnswerKeepsCall(x: Event, s: Pipe, succeeds: bool)
    requires s.query.Some?
    ensures TimesKept(x, Answer(s, succeeds)) + One(GivesUp(x, s, TableAnswers(succeeds))) == TimesKept(x, s)
  {
    hide Submit, Carrying, Waiting;
    if succeeds {
      var q := s.query.value;
      SubmitKeepsCall(x, s.(query := None, numbers := s.numbers[q.emission.taskId := q.max]), q.emission);
    }
  }

  lemma UnblockKeepsCall(x: Event, s: Pipe, i: nat)
    ensures TimesKept(x, Step(s, Unblock(i))) == TimesKept(x, s)
  {
    hide Carrying, Waiting, Asking, Carries;
    if i < |s.blocked| {
      CarryingWithout(x, s.blocked, i);
      CarryingAdd(x, s.accepted, s.blocked[i]);
    }
  }

  lemma StepKeepsCalls(x: Event, s: Pipe, e: Event)
    requires !e.Restart? && (x.EmitCreate? || x.EmitUpdate?)
    ensures TimesKept(x, Step(s, e)) + One(GivesUp(x, s, e)) == TimesKept(x, s) + One(e == x)
  {
    hide Carrying, Waiting, Enqueue, Ask, Answer, ApplyAll;
    match e
    case EmitCreate(emission) => WaitingAdd(x, s.waiting, emission);
    case AskNumber(i) => if i < |s.waiting| && s.query.None? { AskKeepsCall(x, s, i); hide TimesKept; }
    case TableAnswers(succeeds) => if s.query.Some? { AnswerKeepsCall(x, s, succeeds); hide TimesKept; }
    case EmitUpdate(id, updates, priority) => EnqueueKeepsCall(x, EnsureStarted(s), Update(id, updates, priority));
    case Unblock(i) => UnblockKeepsCall(x, s, i); hide Step, TimesKept;
    case _ =>
  }

  /**
   * Nothing vanishes: in every run an emission that the current process was given n times is in n places. It still
   * waits for its number, asks the table for it, waits for room in the queue, was accepted, or was given up because
   * the query failed or because it has low priority and met a full queue.
   */
  lemma {:induction false} NothingVanishes(capacity: int, batchSize: int, table: seq<Row>, events: seq<Event>, x: Event)
    requires x.EmitCreate? || x.EmitUpdate?
    ensures var start := Created(capacity, batchSize, table);
            TimesEmitted(x, events) == TimesKept(x, Run(start, events)) + TimesGivenUp(x, start, events)
  {
    hide *;
    var start := Created(capacity, batchSize, table);
    if events == [] {
      NothingIsThere(x, capacity, batchSize, table);
    } else {
      var init, e := events[..|events| - 1], events[|events| - 1];
      assert events == init + [e];
      NothingVanishes(capacity, batchSize, table, init, x);
      CountsAdd(x, start, init, e);
      if e.Restart? {
        NewProcessHasNothing(x, Run(start, init));
      } else {
        StepKeepsCalls(x, Run(start, init), e);
      }
    }
  }

  lemma NothingIsThere(x: Event, capacity: int, batchSize: int, table: seq<Row>)
    ensures var start := Created(capacity, batchSize, table);
            TimesKept(x, Run(start, [])) == 0 && TimesEmitted(x, []) == 0 && TimesGivenUp(x, start, []) == 0
  {
  }

  lemma NewProcessHasNothing(x: Event, s: Pipe)
    ensures TimesKept(x, Step(s, Restart)) == 0
  {
  }

  lemma CountsAdd(x: Event, start: Pipe, init: seq<Event>, e: Event)
    ensures var events := init + [e];
            && Run(start, events) == Step(Run(start, init), e)
            && TimesEmitted(x, events) == (if e.Restart? then 0 else TimesEmitted(x, init) + One(e == x))
            && TimesGivenUp(x, start, events)
               == (if e.Restart? then 0 else TimesGivenUp(x, start, init) + One(GivesUp(x, Run(start, init), e)))
  {
    assert (init + [e])[..|init|] == init;
    hide GivesUp, Step;
  }

  // ---------------------------------------------------------------- queue and batches stay within their sizes

  function AtLeastOne(n: int): int {
    if n < 1 then 1 else n
  }

  ghost predicate WithinSizes(s: Pipe) {
    && (s.capacity > 0 ==> |s.queue| <= s.capacity)
    && (forall w :: w in s.workers ==> (w.Idle? || 1 <= |w.batch| <= AtLeastOne(s.batchSize)))
    && (forall b :: b in s.finished ==> 1 <= |b.ops| <= AtLeastOne(s.batchSize))
  }

  lemma EnqueueKeepsSizes(s: Pipe, op: LogOp)
    requires WithinSizes(s)
    ensures WithinSizes(Enqueue(s, op)) && SameSizes(s, Enqueue(s, op))
  {
  }

  predicate SameSizes(s: Pipe, t: Pipe) {
    t.capacity == s.capacity && t.batchSize == s.batchSize
  }

  lemma StepKeepsSizes(s: Pipe, e: Event)
    requires WithinSizes(s)
    ensures WithinSizes(Step(s, e)) && SameSizes(s, Step(s, e))
  {
    hide ApplyAll, MaxEventSeq;
    match e
    case AskNumber(i) =>
      if i < |s.waiting| && s.query.None? && s.waiting[i].taskId in s.numbers {
        var e, left := s.waiting[i], s.(waiting := s.waiting[..i] + s.waiting[i + 1..]);
        EnqueueKeepsSizes(Number(left, e.taskId), Create(Row(e.id, e.taskId, NextNumber(s, e.taskId), e.fields), e.priority));
        hide Enqueue;
      }
    case TableAnswers(succeeds) =>
      if s.query.Some? && succeeds {
        var q := s.query.value;
        var cached := s.(query := None, numbers := s.numbers[q.emission.taskId := q.max]);
        EnqueueKeepsSizes(Number(cached, q.emission.taskId),
          Create(Row(q.emission.id, q.emission.taskId, q.max + 1, q.emission.fields), q.emission.priority));
        hide Enqueue;
      }
    case EmitUpdate(id, updates, priority) =>
      EnqueueKeepsSizes(EnsureStarted(s), Update(id, updates, priority));
      hide Enqueue;
    case TakeFirst(_) => WorkKeepsSizes(s, e); hide Step;
    case FillBatch(_) => WorkKeepsSizes(s, e); hide Step;
    case Flush(_, _) => WorkKeepsSizes(s, e); hide Step;
    case _ =>
  }

  lemma WorkKeepsSizes(s: Pipe, e: Event)
    requires WithinSizes(s) && (e.TakeFirst? || e.FillBatch? || e.Flush?)
    ensures WithinSizes(Step(s, e)) && SameSizes(s, Step(s, e))
  {
    hide ApplyAll;
    if e.w < |s.workers| { assert s.workers[e.w] in s.workers; }
  }

  /** In every run the queue stays within its capacity, and every batch has at least one and at most `batchSize` operations. */
  lemma {:induction false} SizesAreKept(capacity: int, batchSize: int, table: seq<Row>, events: seq<Event>)
    ensures var s := Run(Created(capacity, batchSize, table), events);
            WithinSizes(s) && s.capacity == capacity && s.batchSize == batchSize
  {
    if events != [] {
      SizesAreKept(capacity, batchSize, table, events[..|events| - 1]);
      StepKeepsSizes(Run(Created(capacity, batchSize, table), events[..|events| - 1]), Last(events));
      hide WithinSizes, Step;
    }
  }

  /** A batch is completed only when it is full or the queue is empty. */
  lemma FilledMeansFullOrEmpty(s: Pipe, w: nat)
    requires w < |s.workers| && s.workers[w].Filling?
    ensures var t := Step(s, FillBatch(w)); t.workers[w].Flushing? && (|t.workers[w].batch| >= s.batchSize || t.queue == [])
  {
  }

  // ---------------------------------------------------------------- what an accepted creation comes to

  /** The fields that updates of the row set, applied in order. */
  function Overlaid(fields: map<string, string>, ops: seq<LogOp>, id: string): map<string, string> {
    if ops == [] then fields else
      var before := Overlaid(fields, ops[..|ops| - 1], id);
      if Last(ops).Update? && Last(ops).logId == id then before + Allowed(Last(ops).updates) else before
  }

  predicate Sets(op: LogOp, id: string, field: string) {
    op.Update? && op.logId == id && field in op.updates && field in AllowedFields
  }

  lemma OverlaidStep(fields: map<string, string>, ops: seq<LogOp>, id: string, field: string)
    requires ops != []
    ensures var now, before := Overlaid(fields, ops, id), Overlaid(fields, ops[..|ops| - 1], id);
            if Sets(Last(ops), id, field) then field in now && now[field] == Last(ops).updates[field]
            else (field in now <==> field in before) && (field in before ==> now[field] == before[field])
  {
  }

  /** A field that no update sets keeps its first value. */
  lemma {:induction false} UnsetIsKept(fields: map<string, string>, ops: seq<LogOp>, id: string, field: string)
    requires forall k :: 0 <= k < |ops| ==> !Sets(ops[k], id, field)
    ensures field in Overlaid(fields, ops, id) <==> field in fields
    ensures field in fields ==> Overlaid(fields, ops, id)[field] == fields[field]
  {
    if ops != [] {
      OverlaidStep(fields, ops, id, field);
      UnsetIsKept(fields, ops[..|ops| - 1], id, field);
      hide Overlaid, Sets;
    }
  }

  /** A field has the value of the last update that sets it. */
  lemma {:induction false} LastSetCounts(fields: map<string, string>, ops: seq<LogOp>, id: string, field: string, k: nat)
    requires k < |ops| && Sets(ops[k], id, field) && forall j :: k < j < |ops| ==> !Sets(ops[j], id, field)
    ensures field in Overlaid(fields, ops, id) && Overlaid(fields, ops, id)[field] == ops[k].updates[field]
  {
    OverlaidStep(fields, ops, id, field);
    assert ops[k].Update? && field in ops[k].updates;
    hide Overlaid, Sets;
    if k < |ops| - 1 {
      LastSetCounts(fields, ops[..|ops| - 1], id, field, k);
      assert ops[|ops| - 1] == Last(ops);
    }
  }

  predicate CreatesId(op: LogOp, id: string) {
    op.Create? && op.row.id == id
  }

  ghost predicate NoRowWithId(table: seq<Row>, id: string) {
    forall row :: row in table ==> row.id != id
  }

  ghost predicate NoCreation(ops: seq<LogOp>, id: string) {
    forall op :: op in ops ==> !CreatesId(op, id)
  }

  lemma {:induction false} NothingCreated(table: seq<Row>, ops: seq<LogOp>, id: string)
    requires NoRowWithId(table, id) && NoCreation(ops, id)
    ensures NoRowWithId(ApplyAll(table, ops), id)
  {
    if ops != [] {
      var init := ops[..|ops| - 1];
      assert ops == init + [Last(ops)];
      NothingCreated(table, init, id);
      assert Last(ops) in ops;
      var before := ApplyAll(table, init);
      match Last(ops)
      case Create(row, _) =>
        assert forall x :: x in before + [row] <==> x in before || x == row;
      case Update(other, updates, _) => UpdateKeepsIds(before, other, Allowed(updates), id);
    }
  }

  lemma UpdateKeepsIds(table: seq<Row>, other: string, p: map<string, string>, id: string)
    requires NoRowWithId(table, id)
    ensures NoRowWithId(UpdateRows(table, other, p), id)
  {
    var t := UpdateRows(table, other, p);
    forall i | 0 <= i < |t| ensures t[i].id != id {
      assert table[i] in table;
    }
  }

  /** The row is in the table, and no other row has its id. */
  ghost predicate OnlyRow(table: seq<Row>, row: Row) {
    row in table && forall other :: other in table && other.id == row.id ==> other == row
  }

  lemma {:induction false} UpdatesOverlay(table: seq<Row>, ops: seq<LogOp>, row: Row)
    requires OnlyRow(table, row) && NoCreation(ops, row.id)
    ensures OnlyRow(ApplyAll(table, ops), row.(fields := Overlaid(row.fields, ops, row.id)))
  {
    if ops == [] {
      assert row.(fields := row.fields) == row;
    } else {
      var init := ops[..|ops| - 1];
      assert ops == init + [Last(ops)];
      UpdatesOverlay(table, init, row);
      OneMoreOverlay(ApplyAll(table, init), Last(ops), row.(fields := Overlaid(row.fields, init, row.id)));
      hide OnlyRow, Apply;
    }
  }

  lemma OneMoreOverlay(table: seq<Row>, op: LogOp, row: Row)
    requires OnlyRow(table, row) && !CreatesId(op, row.id)
    ensures OnlyRow(Apply(table, op),
                    if op.Update? && op.logId == row.id then row.(fields := row.fields + Allowed(op.updates)) else row)
  {
    match op
    case Create(other, _) =>
    case Update(id, updates, _) =>
      var t := UpdateRows(table, id, Allowed(updates));
      var i :| 0 <= i < |table| && table[i] == row;
      assert t[i] in t;
      forall other | other in t && other.id == row.id ensures other == t[i] {
        var j :| 0 <= j < |t| && t[j] == other;
        assert table[j] in table && table[j].id == row.id;
      }
  }

  /** Writing operations directly: a row with an unused id ends as created, overlaid by the later updates of it. */
  lemma CreationOverlaid(table: seq<Row>, ops: seq<LogOp>, i: nat)
    requires i < |ops| && ops[i].Create? && NoRowWithId(table, ops[i].row.id)
    requires forall j :: 0 <= j < |ops| && j != i ==> !CreatesId(ops[j], ops[i].row.id)
    ensures OnlyRow(ApplyAll(table, ops), ops[i].row.(fields := Overlaid(ops[i].row.fields, ops[i + 1..], ops[i].row.id)))
  {
    var row, early, late := ops[i].row, ops[..i], ops[i + 1..];
    assert ops == early + [ops[i]] + late;
    forall op | op in early ensures !CreatesId(op, row.id) {
      var j :| 0 <= j < |early| && early[j] == op;
      assert ops[j] == op;
    }
    forall op | op in late ensures !CreatesId(op, row.id) {
      var j :| 0 <= j < |late| && late[j] == op;
      assert ops[i + 1 + j] == op;
    }
    NothingCreated(table, early, row.id);
    ApplyAllAppend(table, early + [ops[i]], late);
    ApplyAllAppend(table, early, [ops[i]]);
    ApplyOne(ApplyAll(table, early), ops[i]);
    var before := ApplyAll(table, early);
    assert ApplyAll(table, early + [ops[i]]) == before + [row];
    RowIsOnly(before, row);
    hide ApplyAll, OnlyRow;
    UpdatesOverlay(before + [row], late, row);
  }

  lemma RowIsOnly(table: seq<Row>, row: Row)
    requires NoRowWithId(table, row.id)
    ensures OnlyRow(table + [row], row)
  {
    assert (table + [row])[|table|] == row;
  }

  /**
   * From emission to table: in a drained run with nothing overtaken and no failed batch, an accepted creation with an
   * id that nothing else uses has exactly one row. It has the task and id of an emission of the run, and the emission's
   * fields overlaid by the allowed fields of the updates of that id that were accepted later, in order; each of these
   * is an emission of the run too.
   */
  lemma AcceptedCreationLands(capacity: int, batchSize: int, table: seq<Row>, events: seq<Event>, i: nat)
    requires NeverOvertakes(Created(capacity, batchSize, table), events)
    requires var s := Run(Created(capacity, batchSize, table), events);
             && Drained(s) && (forall b :: b in s.finished ==> b.committed)
             && i < |s.accepted| && s.accepted[i].Create? && NoRowWithId(s.base, s.accepted[i].row.id)
             && forall j :: 0 <= j < |s.accepted| && j != i ==> !CreatesId(s.accepted[j], s.accepted[i].row.id)
    ensures var s := Run(Created(capacity, batchSize, table), events);
            var row := s.accepted[i].row;
            && EmitCreate(Emission(row.id, row.taskId, row.fields, s.accepted[i].priority)) in events
            && OnlyRow(s.table, row.(fields := Overlaid(row.fields, s.accepted[i + 1..], row.id)))
            && forall j :: i < j < |s.accepted| && s.accepted[j].Update? ==>
                 EmitUpdate(s.accepted[j].logId, s.accepted[j].updates, s.accepted[j].priority) in events
  {
    var s := Run(Created(capacity, batchSize, table), events);
    DrainedEqualsDirectWrites(capacity, batchSize, table, events);
    EveryOperationWasEmitted(capacity, batchSize, table, events);
    hide Run, NeverOvertakes, ApplyAll, OnlyRow;
    CreationOverlaid(s.base, s.accepted, i);
    forall j | 0 <= j < |s.accepted| ensures Emitted(s.accepted[j], events) {
      assert s.accepted[j] in s.accepted;
    }
  }
}
