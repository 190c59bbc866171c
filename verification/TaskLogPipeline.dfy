/**
 * The asynchronous task-log pipeline: a bounded queue of create and update operations, a worker that flushes
 * them in batches, and per-task event numbers. Each method is a step between two suspension points.
 */
module TaskLogPipeline {
  import opened Prelude

  // ---------------------------------------------------------------- the log table

  datatype Row = Row(id: string, taskId: string, eventSeq: int, fields: map<string, string>)

  datatype Priority = High | Normal | Low

  datatype LogOp =
    | Create(row: Row, priority: Priority)
    | Update(logId: string, updates: map<string, string>, priority: Priority)

  const AllowedFields := {
    "event_type", "event_source", "status", "request_body", "response_body", "command", "command_args", "workspace",
    "execution_mode", "duration_ms", "result", "output_summary", "output_truncated", "missing_fields", "correlation_id"}

  function Allowed(updates: map<string, string>): map<string, string> {
    map k | k in updates && k in AllowedFields :: updates[k]
  }

  function UpdateRows(table: seq<Row>, id: string, payload: map<string, string>): (r: seq<Row>)
    ensures |r| == |table|
    ensures forall i :: 0 <= i < |r| ==>
              r[i] == if table[i].id == id then table[i].(fields := table[i].fields + payload) else table[i]
  {
    seq(|table|, i requires 0 <= i < |table| =>
      if table[i].id == id then table[i].(fields := table[i].fields + payload) else table[i])
  }

  /** Writing one operation directly to the table. */
  function Apply(table: seq<Row>, op: LogOp): seq<Row> {
    match op
    case Create(row, _) => table + [row]
    case Update(id, updates, _) => UpdateRows(table, id, Allowed(updates))
  }

  function ApplyAll(table: seq<Row>, ops: seq<LogOp>): seq<Row> {
    if ops == [] then table else Apply(ApplyAll(table, ops[..|ops| - 1]), Last(ops))
  }

  lemma NothingToUpdate(table: seq<Row>, id: string)
    ensures UpdateRows(table, id, map[]) == table
  {
    assert forall row: Row :: row.(fields := row.fields + map[]) == row;
  }

  method UpdateLog(table: seq<Row>, id: string, updates: map<string, string>) returns (table': seq<Row>, hit: bool)
    ensures table' == UpdateRows(table, id, Allowed(updates))
    ensures hit <==> Allowed(updates) != map[] && exists row :: row in table && row.id == id
  {
    var payload: map<string, string> := map[];
    var rest := updates.Keys;
    while rest != {}
      invariant rest <= updates.Keys
      invariant payload == map k | k in updates && k !in rest && k in AllowedFields :: updates[k]
      decreases rest
    {
      var k :| k in rest;
      if k in AllowedFields {
        payload := payload[k := updates[k]];
      }
      rest := rest - {k};
    }
    assert payload == Allowed(updates);
    if payload == map[] {
      NothingToUpdate(table, id);
      return table, false;
    }
    table' := UpdateRows(table, id, payload);
    hit := exists row :: row in table && row.id == id;
  }

  /** `get_max_event_seq`: the largest number of the task's rows, 0 when it has none. */
  function MaxEventSeq(table: seq<Row>, taskId: string): (m: int)
    ensures forall row :: row in table && row.taskId == taskId ==> row.eventSeq <= m
    ensures m == 0 || exists row :: row in table && row.taskId == taskId && row.eventSeq == m
  {
    if table == [] then 0 else
      var before := MaxEventSeq(table[..|table| - 1], taskId);
      var row := Last(table);
      assert table == table[..|table| - 1] + [row];
      if row.taskId != taskId then before
      else if exists r :: r in table[..|table| - 1] && r.taskId == taskId && r.eventSeq >= row.eventSeq then before
      else row.eventSeq
  }

  // ---------------------------------------------------------------- the pipeline as a state machine

  datatype Worker = Idle | Filling(batch: seq<LogOp>) | Flushing(batch: seq<LogOp>)

  datatype Batch = Batch(ops: seq<LogOp>, committed: bool)

  /** A call of `emit_create` that has not got its event number yet. */
  datatype Emission = Emission(id: string, taskId: string, fields: map<string, string>, priority: Priority)

  /** The call that holds the sequence lock while it waits for the table's answer, and that answer. */
  datatype Query = Query(emission: Emission, max: int)

  /**
   * `base`, `accepted`, `finished` and `handedOut` record the history of the current process. An operation's place
   * is its position among the accepted ones: `held` has the places of each worker's batch, `placed` those of the
   * finished batches.
   */
  datatype Pipe = Pipe(
    capacity: int,
    batchSize: int,
    running: bool,
    queue: seq<LogOp>,
    blocked: seq<LogOp>,
    workers: seq<Worker>,
    waiting: seq<Emission>,
    query: Option<Query>,
    numbers: map<string, int>,
    table: seq<Row>,
    base: seq<Row>,
    accepted: seq<LogOp>,
    finished: seq<Batch>,
    handedOut: seq<(string, int)>,
    held: seq<seq<nat>>,
    placed: seq<nat>)
  {
    predicate Full() {
      capacity > 0 && |queue| >= capacity
    }

    /** How many accepted operations have left the queue. */
    function Taken(): nat {
      if |queue| <= |accepted| then |accepted| - |queue| else 0
    }
  }

  function HeldBy(held: seq<seq<nat>>, w: nat): seq<nat> {
    if w < |held| then held[w] else []
  }

  function Hold(held: seq<seq<nat>>, w: nat, places: seq<nat>): seq<seq<nat>> {
    if w < |held| then held[w := places] else held
  }

  function Leave<T>(s: seq<T>, w: nat): seq<T> {
    if w < |s| then s[..w] + s[w + 1..] else s
  }

  function Span(from: nat, n: nat): (r: seq<nat>)
    ensures |r| == n && forall i :: 0 <= i < n ==> r[i] == from + i
  {
    seq(n, i requires 0 <= i < n => from + i)
  }

  datatype Event =
    | StartUp
    | EmitCreate(emission: Emission)
    | AskNumber(i: nat)
    | TableAnswers(succeeds: bool)
    | EmitUpdate(logId: string, updates: map<string, string>, priority: Priority)
    | Unblock(i: nat)
    | TakeFirst(w: nat)
    | FillBatch(w: nat)
    | Flush(w: nat, commits: bool)
    | Stop
    | Exit(w: nat)
    | Restart

  function Put(s: Pipe, op: LogOp): Pipe {
    s.(queue := s.queue + [op], accepted := s.accepted + [op])
  }

  function EnsureStarted(s: Pipe): Pipe {
    if s.running then s else s.(running := true, workers := s.workers + [Idle], held := s.held + [[]])
  }

  /** `_enqueue`: a full queue drops low-priority operations and makes the others wait. */
  function Enqueue(s: Pipe, op: LogOp): Pipe {
    if !s.Full() then Put(s, op)
    else if op.priority.Low? then s
    else s.(blocked := s.blocked + [op])
  }

  function NextNumber(s: Pipe, taskId: string): int
    requires taskId in s.numbers
  {
    s.numbers[taskId] + 1
  }

  function Number(s: Pipe, taskId: string): Pipe
    requires taskId in s.numbers
  {
    var n := NextNumber(s, taskId);
    s.(numbers := s.numbers[taskId := n], handedOut := s.handedOut + [(taskId, n)])
  }

  /** With the task in the cache, the call takes the next number and goes on to the queue without a pause. */
  function Submit(s: Pipe, e: Emission): Pipe
    requires e.taskId in s.numbers
  {
    Enqueue(Number(s, e.taskId), Create(Row(e.id, e.taskId, NextNumber(s, e.taskId), e.fields), e.priority))
  }

  /** The i-th waiting call gets the sequence lock: a known task is numbered at once, for another the table is asked. */
  function Ask(s: Pipe, i: nat): Pipe
    requires i < |s.waiting|
  {
    var e := s.waiting[i];
    var left := s.(waiting := s.waiting[..i] + s.waiting[i + 1..]);
    if e.taskId in s.numbers then Submit(left, e) else left.(query := Some(Query(e, MaxEventSeq(s.table, e.taskId))))
  }

  /** The table's answer fills the cache; a failing query ends the call and releases the lock. */
  function Answer(s: Pipe, succeeds: bool): Pipe
    requires s.query.Some?
  {
    var q := s.query.value;
    var released := s.(query := None);
    if succeeds then Submit(released.(numbers := s.numbers[q.emission.taskId := q.max]), q.emission) else released
  }

  function Smaller(a: int, b: int): int {
    if a < b then a else b
  }

  /** How many operations join a batch of `have`, up to the batch size. */
  function Extra(s: Pipe, have: nat): (n: nat)
    ensures n <= |s.queue|
  {
    if s.batchSize <= have then 0 else Smaller(s.batchSize - have, |s.queue|)
  }

  /** A process starts on a table. */
  function Created(capacity: int, batchSize: int, table: seq<Row>): Pipe {
    Pipe(capacity, batchSize, false, [], [], [], [], None, map[], table, table, [], [], [], [], [])
  }

  function Step(s: Pipe, e: Event): Pipe {
    match e
    case StartUp => EnsureStarted(s)
    case EmitCreate(e) => EnsureStarted(s).(waiting := s.waiting + [e])
    case AskNumber(i) => if i < |s.waiting| && s.query.None? then Ask(s, i) else s
    case TableAnswers(succeeds) => if s.query.Some? then Answer(s, succeeds) else s
    case EmitUpdate(id, updates, priority) =>
      Enqueue(EnsureStarted(s), Update(id, updates, priority))
    case Unblock(i) =>
      if i < |s.blocked| && !s.Full() then Put(s.(blocked := s.blocked[..i] + s.blocked[i + 1..]), s.blocked[i]) else s
    case TakeFirst(w) =>
      if w < |s.workers| && s.workers[w].Idle? && s.queue != [] then
        s.(workers := s.workers[w := Filling([s.queue[0]])], queue := s.queue[1..], held := Hold(s.held, w, [s.Taken()]))
      else s
    case FillBatch(w) =>
      if w < |s.workers| && s.workers[w].Filling? then
        var n := Extra(s, |s.workers[w].batch|);
        s.(workers := s.workers[w := Flushing(s.workers[w].batch + s.queue[..n])], queue := s.queue[n..],
           held := Hold(s.held, w, HeldBy(s.held, w) + Span(s.Taken(), n)))
      else s
    case Flush(w, commits) =>
      if w < |s.workers| && s.workers[w].Flushing? then
        s.(workers := s.workers[w := Idle],
           table := if commits then ApplyAll(s.table, s.workers[w].batch) else s.table,
           finished := s.finished + [Batch(s.workers[w].batch, commits)],
           held := Hold(s.held, w, []), placed := s.placed + HeldBy(s.held, w))
      else s
    case Stop => s.(running := false)
    case Exit(w) =>
      if w < |s.workers| && s.workers[w].Idle? && !s.running && s.queue == [] then
        s.(workers := Leave(s.workers, w), held := Leave(s.held, w))
      else s
    case Restart =>
      Created(s.capacity, s.batchSize, s.table)
  }

  function Run(s: Pipe, events: seq<Event>): Pipe {
    if events == [] then s else Step(Run(s, events[..|events| - 1]), Last(events))
  }

  // ---------------------------------------------------------------- the pipeline object

  class TaskLogEventPipeline {
    const capacity: int
    const batchSize: int
    var running: bool
    var queue: seq<LogOp>
    var blocked: seq<LogOp>
    var workers: seq<Worker>
    var waiting: seq<Emission>
    var query: Option<Query>
    var sequenceCache: map<string, int>
    var table: seq<Row>
    ghost var base: seq<Row>
    ghost var accepted: seq<LogOp>
    ghost var finished: seq<Batch>
    ghost var handedOut: seq<(string, int)>
    ghost var held: seq<seq<nat>>
    ghost var placed: seq<nat>

    constructor (capacity: int, batchSize: int, table: seq<Row>)
      ensures State() == Created(capacity, batchSize, table)
    {
      this.capacity, this.batchSize, running := capacity, batchSize, false;
      queue, blocked, workers, sequenceCache := [], [], [], map[];
      waiting, query := [], None;
      this.table, base, accepted, finished, handedOut := table, table, [], [], [];
      held, placed := [], [];
    }

    ghost function State(): Pipe
      reads this
    {
      Pipe(capacity, batchSize, running, queue, blocked, workers, waiting, query, sequenceCache, table, base, accepted,
           finished, handedOut, held, placed)
    }

    method Start()
      modifies this
      ensures State() == EnsureStarted(old(State())) == Step(old(State()), StartUp)
    {
      if running {
        return;
      }
      running := true;
      workers := workers + [Idle];
      held := held + [[]];
    }

    method NextEventSeq(taskId: string) returns (n: int)
      requires taskId in sequenceCache
      modifies this
      ensures State() == Number(old(State()), taskId) && n == NextNumber(old(State()), taskId)
    {
      sequenceCache := sequenceCache[taskId := sequenceCache[taskId] + 1];
      n := sequenceCache[taskId];
      handedOut := handedOut + [(taskId, n)];
    }

    method PutOnQueue(op: LogOp)
      modifies this
      ensures State() == Put(old(State()), op)
    {
      queue := queue + [op];
      accepted := accepted + [op];
    }

    /** `done` tells whether the call has its answer; a blocked one gets it from UnblockOne. */
    method EnqueueOp(op: LogOp) returns (done: bool, ok: bool)
      modifies this
      ensures State() == Enqueue(old(State()), op)
      ensures done && ok <==> !old(State()).Full()
      ensures done && !ok <==> old(State()).Full() && op.priority.Low?
    {
      if capacity <= 0 || |queue| < capacity {
        PutOnQueue(op);
        return true, true;
      }
      if op.priority.Low? {
        return true, false;
      }
      blocked := blocked + [op];
      return false, false;
    }

    /** `emit_create` up to the sequence lock. */
    method EmitCreateOp(e: Emission)
      modifies this
      ensures State() == Step(old(State()), EmitCreate(e))
    {
      Start();
      waiting := waiting + [e];
    }

    /** A waiting call gets the lock; the table is read only for a task that the cache does not have. */
    method AskForNumber(i: nat)
      modifies this
      ensures State() == Step(old(State()), AskNumber(i))
    {
      if i >= |waiting| || query.Some? {
        return;
      }
      var e := waiting[i];
      waiting := waiting[..i] + waiting[i + 1..];
      if e.taskId !in sequenceCache {
        query := Some(Query(e, MaxEventSeq(table, e.taskId)));
        return;
      }
      SubmitCreate(e);
    }

    /** The call goes on when the table has answered. */
    method TakeAnswer(succeeds: bool)
      modifies this
      ensures State() == Step(old(State()), TableAnswers(succeeds))
    {
      if query.None? {
        return;
      }
      var q := query.value;
      query := None;
      if succeeds {
        sequenceCache := sequenceCache[q.emission.taskId := q.max];
        SubmitCreate(q.emission);
      }
    }

    method SubmitCreate(e: Emission)
      requires e.taskId in sequenceCache
      modifies this
      ensures State() == Submit(old(State()), e)
    {
      var n := NextEventSeq(e.taskId);
      var done, ok := EnqueueOp(Create(Row(e.id, e.taskId, n, e.fields), e.priority));
    }

    method EmitUpdateOp(logId: string, updates: map<string, string>, priority: Priority)
      modifies this
      ensures State() == Step(old(State()), EmitUpdate(logId, updates, priority))
    {
      Start();
      var done, ok := EnqueueOp(Update(logId, updates, priority));
    }

    method UnblockOne(i: nat)
      modifies this
      ensures State() == Step(old(State()), Unblock(i))
    {
      if i < |blocked| && (capacity <= 0 || |queue| < capacity) {
        var op := blocked[i];
        blocked := blocked[..i] + blocked[i + 1..];
        PutOnQueue(op);
      }
    }

    /** The worker's loop head: it waits for a first operation. */
    method BeginBatch(w: nat)
      modifies this
      ensures State() == Step(old(State()), TakeFirst(w))
    {
      if w < |workers| && workers[w].Idle? && queue != [] {
        held := Hold(held, w, [State().Taken()]);
        workers := workers[w := Filling([queue[0]])];
        queue := queue[1..];
      }
    }

    /** The inner loop: more operations join without waiting, up to the batch size. */
    method CompleteBatch(w: nat)
      modifies this
      ensures State() == Step(old(State()), FillBatch(w))
    {
      if w < |workers| && workers[w].Filling? {
        var batch := workers[w].batch;
        ghost var n := 0;
        while |batch| < batchSize && queue != []
          invariant 0 <= n <= |old(queue)|
          invariant n > 0 ==> |batch| <= batchSize
          invariant batch == old(workers)[w].batch + old(queue)[..n] && queue == old(queue)[n..]
          invariant State() == old(State()).(queue := queue)
          decreases |queue|
        {
          batch := batch + [queue[0]];
          queue := queue[1..];
          n := n + 1;
        }
        assert n == Extra(old(State()), |old(workers)[w].batch|);
        workers := workers[w := Flushing(batch)];
        held := Hold(held, w, HeldBy(held, w) + Span(old(State()).Taken(), n));
      }
    }

    /** `_flush_batch`: the operations run in one transaction; `commits` tells whether it went through. */
    method FlushBatch(w: nat, commits: bool)
      modifies this
      ensures State() == Step(old(State()), Flush(w, commits))
    {
      if w < |workers| && workers[w].Flushing? {
        var batch := workers[w].batch;
        var session := table;
        var i := 0;
        while i < |batch|
          invariant 0 <= i <= |batch|
          invariant session == ApplyAll(table, batch[..i]) && State() == old(State())
        {
          assert batch[..i + 1][..i] == batch[..i];
          match batch[i] {
            case Create(row, _) =>
              session := session + [row];
            case Update(id, updates, _) =>
              var hit;
              session, hit := UpdateLog(session, id, updates);
          }
          i := i + 1;
        }
        assert batch[..i] == batch;
        if commits {
          table := session;
        }
        workers := workers[w := Idle];
        finished := finished + [Batch(batch, commits)];
        placed := placed + HeldBy(held, w);
        held := Hold(held, w, []);
      }
    }

    method RequestStop()
      modifies this
      ensures State() == Step(old(State()), Stop)
    {
      running := false;
    }

    /** The worker leaves its loop once the pipeline is stopped and the queue is empty. */
    method ExitWorker(w: nat)
      modifies this
      ensures State() == Step(old(State()), Exit(w))
    {
      if w < |workers| && workers[w].Idle? && !running && queue == [] {
        workers := Leave(workers, w);
        held := Leave(held, w);
      }
    }

    /** The process dies and a new one starts on the same table. */
    method RestartProcess()
      modifies this
      ensures State() == Created(capacity, batchSize, old(table)) == Step(old(State()), Restart)
    {
      ForgetCalls();
      ForgetHistory();
      assert State() == Created(capacity, batchSize, table);
    }

    method ForgetCalls()
      modifies `running, `queue, `blocked, `workers, `waiting, `query, `sequenceCache
      ensures !running && queue == [] && blocked == [] && workers == []
      ensures waiting == [] && query == None && sequenceCache == map[]
    {
      running, sequenceCache := false, map[];
      queue, blocked, workers := [], [], [];
      waiting, query := [], None;
    }

    ghost method ForgetHistory()
      modifies `base, `accepted, `finished, `handedOut, `held, `placed
      ensures base == table && accepted == [] && finished == [] && handedOut == [] && held == [] && placed == []
    {
      base, accepted, finished, handedOut := table, [], [], [];
      held, placed := [], [];
    }
  }
}
