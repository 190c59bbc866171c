/** Stopping the log pipeline: when an accepted operation is left in a queue that no worker serves. */
module LogStops {
  import opened Prelude
  import opened TaskLogPipeline
  import opened LogOrder

  predicate Stranded(s: Pipe) {
    s.queue != [] && s.workers == []
  }

  /** A call that was under way goes on after the last worker has left, and its operation is accepted. */
  predicate AcceptedLate(s: Pipe, e: Event) {
    && s.workers == [] && !s.Full()
    && match e
       case AskNumber(i) => i < |s.waiting| && s.query.None? && s.waiting[i].taskId in s.numbers
       case TableAnswers(succeeds) => s.query.Some? && succeeds
       case Unblock(i) => i < |s.blocked|
       case _ => false
  }

  /** A running pipeline has a worker. */
  predicate Served(s: Pipe) {
    s.running ==> s.workers != []
  }

  lemma StepKeepsServed(s: Pipe, e: Event)
    requires Served(s)
    ensures Served(Step(s, e))
  {
    hide ApplyAll, MaxEventSeq;
  }

  /** Calls and starts that begin now, and new processes, bring a worker or an empty queue. */
  predicate Begins(e: Event) {
    e.StartUp? || e.EmitCreate? || e.EmitUpdate? || e.Restart?
  }

  lemma StrandsExactly(s: Pipe, e: Event)
    requires Served(s) && !Stranded(s)
    ensures Stranded(Step(s, e)) <==> AcceptedLate(s, e)
  {
    hide ApplyAll, MaxEventSeq;
  }

  lemma StaysStrandedExactly(s: Pipe, e: Event)
    requires Served(s) && Stranded(s)
    ensures Stranded(Step(s, e)) <==> !Begins(e)
  {
    hide ApplyAll, MaxEventSeq;
  }

  /** Some operation was accepted late, and nothing has begun since. */
  ghost predicate LeftBehind(s: Pipe, events: seq<Event>) {
    && events != []
    && var init, e := events[..|events| - 1], Last(events);
       AcceptedLate(Run(s, init), e) || (LeftBehind(s, init) && !Begins(e))
  }

  /** A run ends with stranded operations exactly when one was accepted late and nothing has begun since. */
  lemma {:induction false} RunStrandsExactly(capacity: int, batchSize: int, table: seq<Row>, events: seq<Event>)
    ensures var s := Run(Created(capacity, batchSize, table), events);
            Served(s) && (Stranded(s) <==> LeftBehind(Created(capacity, batchSize, table), events))
  {
    hide Step, AcceptedLate;
    if events != [] {
      var init := events[..|events| - 1];
      RunStrandsExactly(capacity, batchSize, table, init);
      var s := Run(Created(capacity, batchSize, table), init);
      StepKeepsServed(s, Last(events));
      if Stranded(s) {
        StaysStrandedExactly(s, Last(events));
        LateNeedsNoBeginning(s, Last(events));
      } else {
        StrandsExactly(s, Last(events));
      }
    }
  }

  lemma LateNeedsNoBeginning(s: Pipe, e: Event)
    ensures AcceptedLate(s, e) ==> !Begins(e)
  {
  }

  // ---------------------------------------------------------------- which states can still strand an operation

  /** A call has not come to its end: it waits for the lock, for the table, or for room in the queue. */
  predicate Outstanding(s: Pipe) {
    s.waiting != [] || s.query.Some? || s.blocked != []
  }

  predicate NothingBegins(events: seq<Event>) {
    forall e :: e in events ==> !Begins(e)
  }

  lemma QuietStep(s: Pipe, e: Event)
    requires !Outstanding(s) && !Stranded(s) && !Begins(e)
    ensures !Outstanding(Step(s, e)) && !Stranded(Step(s, e))
  {
    hide ApplyAll, MaxEventSeq;
  }

  lemma {:induction false} QuietRun(s: Pipe, events: seq<Event>)
    requires !Outstanding(s) && !Stranded(s) && NothingBegins(events)
    ensures !Outstanding(Run(s, events)) && !Stranded(Run(s, events))
  {
    if events != [] {
      var init := events[..|events| - 1];
      assert events == init + [Last(events)];
      QuietRun(s, init);
      QuietStep(Run(s, init), Last(events));
      hide Step, Outstanding, Stranded;
    }
  }

  function Phase(w: Worker): nat {
    match w case Idle => 0 case Filling(_) => 2 case Flushing(_) => 1
  }

  /** What the first worker does next, on its way out. */
  function NextOut(s: Pipe): Event
    requires s.workers != []
  {
    match s.workers[0]
    case Filling(_) => FillBatch(0)
    case Flushing(_) => Flush(0, true)
    case Idle => if s.queue == [] then Exit(0) else TakeFirst(0)
  }

  predicate SameCalls(s: Pipe, t: Pipe) {
    t.waiting == s.waiting && t.query == s.query && t.blocked == s.blocked
  }

  lemma StepOut(s: Pipe)
    requires !s.running && s.workers != []
    ensures var t := Step(s, NextOut(s));
            && !t.running && SameCalls(s, t) && !Begins(NextOut(s)) && !Stranded(t)
            && (|t.workers| < |s.workers| ||
                (|t.workers| == |s.workers| && 3 * |t.queue| + Phase(t.workers[0]) < 3 * |s.queue| + Phase(s.workers[0])))
  {
    hide ApplyAll, MaxEventSeq;
  }

  lemma RunFirst(s: Pipe, e: Event, events: seq<Event>)
    ensures Run(s, [e] + events) == Run(Step(s, e), events)
  {
    hide *;
    RunOne(s, e);
    RunSplit(s, [e], events);
  }

  lemma MoreQuiet(e: Event, events: seq<Event>)
    requires !Begins(e) && NothingBegins(events)
    ensures NothingBegins([e] + events)
  {
    hide Begins;
  }

  /** After a stop the workers can finish the queue and leave while the calls under way still wait. */
  lemma {:induction false} WorkersCanLeave(s: Pipe) returns (events: seq<Event>)
    requires !s.running && !Stranded(s)
    ensures NothingBegins(events)
    ensures var t := Run(s, events); !t.running && SameCalls(s, t) && t.workers == [] && t.queue == []
    decreases |s.workers|, 3 * |s.queue| + if s.workers == [] then 0 else Phase(s.workers[0])
  {
    hide Step, NextOut, Begins, NothingBegins;
    if s.workers == [] {
      events := [];
      Nothing(s);
    } else {
      StepOut(s);
      var e := NextOut(s);
      var more := WorkersCanLeave(Step(s, e));
      events := [e] + more;
      MoreQuiet(e, more);
      RunFirst(s, e, more);
    }
  }

  lemma Nothing(s: Pipe)
    ensures NothingBegins([]) && Run(s, []) == s
  {
  }

  /** With the workers gone, any call that goes on strands its operation. */
  lemma CallCanStrand(s: Pipe) returns (events: seq<Event>)
    requires s.workers == [] && s.queue == [] && !s.running && Outstanding(s)
    ensures NothingBegins(events) && Stranded(Run(s, events))
  {
    hide Run, MaxEventSeq;
    if s.blocked != [] {
      events := [Unblock(0)];
      RunOne(s, Unblock(0));
    } else if s.query.Some? {
      events := [TableAnswers(true)];
      RunOne(s, TableAnswers(true));
    } else if s.waiting[0].taskId in s.numbers {
      events := [AskNumber(0)];
      RunOne(s, AskNumber(0));
    } else {
      events := [AskNumber(0), TableAnswers(true)];
      RunTwo(s, AskNumber(0), TableAnswers(true));
    }
  }

  /**
   * From a state with nothing stranded, and with no new call, start or process, an operation can end stranded
   * exactly when some call is still under way.
   */
  lemma CanStrandExactly(s: Pipe)
    requires Served(s) && !Stranded(s)
    ensures (exists events :: NothingBegins(events) && Stranded(Run(s, events))) <==> Outstanding(s)
  {
    hide Run, Step, NothingBegins, Stranded, Outstanding;
    if Outstanding(s) {
      var events := SomeStranding(s);
    }
    if events :| NothingBegins(events) && Stranded(Run(s, events)) {
      if !Outstanding(s) {
        QuietRun(s, events);
      }
    }
  }

  lemma SomeStranding(s: Pipe) returns (events: seq<Event>)
    requires !Stranded(s) && Outstanding(s)
    ensures NothingBegins(events) && Stranded(Run(s, events))
  {
    var stopped := s.(running := false);
    assert Step(s, Stop) == stopped;
    hide Run, Step, NothingBegins;
    var out := WorkersCanLeave(stopped);
    var last := CallCanStrand(Run(stopped, out));
    events := [Stop] + (out + last);
    RunSplit(stopped, out, last);
    RunFirst(s, Stop, out + last);
    QuietTogether(out, last);
    MoreQuiet(Stop, out + last);
  }

  lemma QuietTogether(a: seq<Event>, b: seq<Event>)
    requires NothingBegins(a) && NothingBegins(b)
    ensures NothingBegins(a + b)
  {
    hide Begins;
  }
}
