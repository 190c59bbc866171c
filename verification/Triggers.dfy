/** External events become tasks: first matching rule wins, duplicates within a window are skipped, and a dry run previews it. */
module Triggers {
  import opened Prelude
  import opened Flatten
  import opened Filters

  datatype Rule = Rule(
    id: string,
    source: string,
    eventType: string,
    enabled: bool,
    projectId: Option<string>,
    filters: Filter,
    titleTemplate: string,
    descTemplate: string,
    dedupTemplate: string,
    dedupWindowHours: int)

  /** The filter's answer and the template renderer, both functions of their arguments only. */
  datatype Library = Library(passes: (Filter, Json) -> bool, format: (string, Json) -> string)

  datatype Result = SkippedNoRule | SkippedFilter | SkippedDedup | Triggered

  datatype EventRow = EventRow(ruleId: Option<string>, dedupKey: Option<string>, result: Result, createdAt: int)

  datatype Task = Task(rule: Rule, title: string, description: Option<string>)

  function Render(lib: Library, template: string, payload: Json): string {
    if template == "" then "" else lib.format(template, payload)
  }

  /** Python's `text or None`. */
  function NonEmpty(text: string): Option<string> {
    if text == "" then None else Some(text)
  }

  function DedupKey(lib: Library, rule: Rule, payload: Json): Option<string> {
    NonEmpty(Render(lib, rule.dedupTemplate, payload))
  }

  function TaskFor(lib: Library, rule: Rule, payload: Json): Task {
    Task(rule, Render(lib, rule.titleTemplate, payload), NonEmpty(Render(lib, rule.descTemplate, payload)))
  }

  const Hour := 3600

  /** The window in seconds; 0 hours counts as 24. */
  function Window(rule: Rule): int {
    (if rule.dedupWindowHours == 0 then 24 else rule.dedupWindowHours) * Hour
  }

  predicate IsTriggerOf(row: EventRow, rule: Rule, key: string) {
    row.ruleId == Some(rule.id) && row.dedupKey == Some(key) && row.result.Triggered?
  }

  predicate IsDuplicate(log: seq<EventRow>, rule: Rule, key: string, now: int) {
    exists row :: row in log && IsTriggerOf(row, rule, key) && row.createdAt >= now - Window(rule)
  }

  predicate Blocked(lib: Library, log: seq<EventRow>, rule: Rule, payload: Json, now: int) {
    var key := DedupKey(lib, rule, payload);
    key.Some? && IsDuplicate(log, rule, key.value, now)
  }

  predicate Matches(r: Rule, source: string, eventType: string, project: Option<string>) {
    r.source == source && r.enabled && (project.Some? ==> r.projectId == project) && (r.eventType == "*" || r.eventType == eventType)
  }

  /** The enabled rules for the event in the order of their creation; a project restricts them to its own. */
  function Matched(rules: seq<Rule>, source: string, eventType: string, project: Option<string>): seq<Rule> {
    if rules == [] then [] else
      var r := rules[0];
      (if Matches(r, source, eventType, project) then [r] else []) + Matched(rules[1..], source, eventType, project)
  }

  datatype Processed = Processed(log: seq<EventRow>, task: Option<Task>)

  /** Trying the rules one after the other. `clock` is read for each check and for each row written. */
  function Process(lib: Library, rules: seq<Rule>, log: seq<EventRow>, payload: Json, clock: nat -> int, i: nat): Processed
    requires i <= |rules|
    decreases |rules| - i
  {
    if i == |rules| then Processed(log, None) else
      var rule := rules[i];
      if !lib.passes(rule.filters, payload) then
        Process(lib, rules, log + [EventRow(Some(rule.id), None, SkippedFilter, clock(2 * i + 1))], payload, clock, i + 1)
      else
        var key := DedupKey(lib, rule, payload);
        if Blocked(lib, log, rule, payload, clock(2 * i)) then
          Process(lib, rules, log + [EventRow(Some(rule.id), key, SkippedDedup, clock(2 * i + 1))], payload, clock, i + 1)
        else
          Processed(log + [EventRow(Some(rule.id), key, Triggered, clock(2 * i + 1))], Some(TaskFor(lib, rule, payload)))
  }

  function ProcessMatched(lib: Library, rules: seq<Rule>, log: seq<EventRow>, payload: Json, clock: nat -> int): Processed {
    if rules == [] then Processed(log + [EventRow(None, None, SkippedNoRule, clock(1))], None)
    else Process(lib, rules, log, payload, clock, 0)
  }

  datatype Preview = Preview(rule: Option<Rule>, result: Result, dedupKey: Option<string>, task: Option<Task>)

  function PreviewOf(lib: Library, rule: Rule, result: Result, payload: Json): Preview {
    Preview(Some(rule), result, DedupKey(lib, rule, payload), Some(TaskFor(lib, rule, payload)))
  }

  /** The dry run from rule i on; `last` is what it reports if no rule triggers. */
  function Simulate(lib: Library, rules: seq<Rule>, log: seq<EventRow>, payload: Json, now: int, i: nat, last: Preview): Preview
    requires i <= |rules|
    decreases |rules| - i
  {
    if i == |rules| then last else
      var rule := rules[i];
      if !lib.passes(rule.filters, payload) then
        Simulate(lib, rules, log, payload, now, i + 1, PreviewOf(lib, rule, SkippedFilter, payload))
      else if Blocked(lib, log, rule, payload, now) then
        Simulate(lib, rules, log, payload, now, i + 1, PreviewOf(lib, rule, SkippedDedup, payload))
      else PreviewOf(lib, rule, Triggered, payload)
  }

  const NoRule := Preview(None, SkippedNoRule, None, None)

  class TriggerService {
    const lib: Library
    var rules: seq<Rule>
    var events: seq<EventRow>
    var tasks: seq<Task>

    constructor (lib: Library, rules: seq<Rule>)
      ensures this.lib == lib && this.rules == rules && events == [] && tasks == []
    {
      this.lib, this.rules, events, tasks := lib, rules, [], [];
    }

    method LogEvent(ruleId: Option<string>, dedupKey: Option<string>, result: Result, at: int)
      modifies `events
      ensures events == old(events) + [EventRow(ruleId, dedupKey, result, at)]
    {
      events := events + [EventRow(ruleId, dedupKey, result, at)];
    }

    method ProcessEvent(source: string, eventType: string, payload: Json, project: Option<string>, clock: nat -> int)
      returns (task: Option<Task>)
      modifies `events, `tasks
      ensures Processed(events, task)
              == ProcessMatched(lib, Matched(rules, source, eventType, project), old(events), payload, clock)
      ensures tasks == old(tasks) + if task.Some? then [task.value] else []
    {
      var matched := Matched(rules, source, eventType, project);
      if matched == [] {
        LogEvent(None, None, SkippedNoRule, clock(1));
        return None;
      }
      var i := 0;
      while i < |matched|
        invariant 0 <= i <= |matched|
        invariant tasks == old(tasks) && rules == old(rules)
        invariant Process(lib, matched, old(events), payload, clock, 0) == Process(lib, matched, events, payload, clock, i)
      {
        var rule := matched[i];
        if !lib.passes(rule.filters, payload) {
          LogEvent(Some(rule.id), None, SkippedFilter, clock(2 * i + 1));
          i := i + 1;
          continue;
        }
        var dedupKey := DedupKey(lib, rule, payload);
        if dedupKey.Some? && IsDuplicate(events, rule, dedupKey.value, clock(2 * i)) {
          LogEvent(Some(rule.id), dedupKey, SkippedDedup, clock(2 * i + 1));
          i := i + 1;
          continue;
        }
        var created := TaskFor(lib, rule, payload);
        tasks := tasks + [created];
        LogEvent(Some(rule.id), dedupKey, Triggered, clock(2 * i + 1));
        return Some(created);
      }
      return None;
    }

    method SimulateEvent(source: string, eventType: string, payload: Json, now: int) returns (preview: Preview)
      ensures var matched := Matched(rules, source, eventType, None);
              preview == Simulate(lib, matched, events, payload, now, 0, NoRule)
    {
      var matched := Matched(rules, source, eventType, None);
      if matched == [] {
        return NoRule;
      }
      preview := NoRule;
      var i := 0;
      while i < |matched|
        invariant 0 <= i <= |matched|
        invariant Simulate(lib, matched, events, payload, now, 0, NoRule)
                  == Simulate(lib, matched, events, payload, now, i, preview)
      {
        var rule := matched[i];
        var filterPassed := lib.passes(rule.filters, payload);
        var dedupKey := DedupKey(lib, rule, payload);
        var dedupBlocked := dedupKey.Some? && IsDuplicate(events, rule, dedupKey.value, now);
        i := i + 1;
        if !filterPassed {
          preview := PreviewOf(lib, rule, SkippedFilter, payload);
          continue;
        }
        if dedupBlocked {
          preview := PreviewOf(lib, rule, SkippedDedup, payload);
          continue;
        }
        return PreviewOf(lib, rule, Triggered, payload);
      }
    }
  }

  // ---------------------------------------------------------------- the dry run predicts the real run

  /** Rows of skipped rules never change a later duplicate check. */
  lemma SkipsNeverBlock(lib: Library, log: seq<EventRow>, row: EventRow, rule: Rule, payload: Json, now: int)
    requires !row.result.Triggered?
    ensures Blocked(lib, log + [row], rule, payload, now) == Blocked(lib, log, rule, payload, now)
  {
    assert forall x :: x in log + [row] <==> x in log || x == row;
  }

  /** `row` is what the real run logs where the dry run reports `preview`. */
  predicate Reports(row: EventRow, preview: Preview) {
    && row.result == preview.result
    && row.ruleId == (if preview.rule.Some? then Some(preview.rule.value.id) else None)
    && (!row.result.SkippedFilter? ==> row.dedupKey == preview.dedupKey)
  }

  /** The preview depends on the log only through its triggered rows. */
  ghost predicate SameBlocking(lib: Library, a: seq<EventRow>, b: seq<EventRow>, payload: Json, now: int) {
    forall rule :: Blocked(lib, a, rule, payload, now) == Blocked(lib, b, rule, payload, now)
  }

  lemma {:induction false} ProcessFollowsSimulation(lib: Library, rules: seq<Rule>, log: seq<EventRow>, seen: seq<EventRow>,
                                                    payload: Json, now: int, i: nat, last: Preview)
    requires i <= |rules| && SameBlocking(lib, log, seen, payload, now)
    requires i == |rules| ==> seen != [] && Reports(Last(seen), last) && !last.result.Triggered?
    ensures var run := Process(lib, rules, seen, payload, (_: nat) => now, i);
            var sim := Simulate(lib, rules, log, payload, now, i, last);
            && (run.task.Some? <==> sim.result.Triggered?)
            && (run.task.Some? ==> run.task == sim.task && sim.rule == Some(run.task.value.rule))
            && seen <= run.log && run.log != [] && Reports(Last(run.log), sim)
    decreases |rules| - i
  {
    if i < |rules| {
      var rule := rules[i];
      var key := DedupKey(lib, rule, payload);
      if !lib.passes(rule.filters, payload) {
        var row := EventRow(Some(rule.id), None, SkippedFilter, now);
        forall r ensures Blocked(lib, seen + [row], r, payload, now) == Blocked(lib, log, r, payload, now) {
          SkipsNeverBlock(lib, seen, row, r, payload, now);
        }
        ProcessFollowsSimulation(lib, rules, log, seen + [row], payload, now, i + 1, PreviewOf(lib, rule, SkippedFilter, payload));
      } else if Blocked(lib, log, rule, payload, now) {
        var row := EventRow(Some(rule.id), key, SkippedDedup, now);
        forall r ensures Blocked(lib, seen + [row], r, payload, now) == Blocked(lib, log, r, payload, now) {
          SkipsNeverBlock(lib, seen, row, r, payload, now);
        }
        ProcessFollowsSimulation(lib, rules, log, seen + [row], payload, now, i + 1, PreviewOf(lib, rule, SkippedDedup, payload));
      }
    }
  }

  /**
   * For the same rules, log and instant and no project: the real run creates a task exactly when the dry run
   * says so, the same one, and its last log row carries the dry run's result.
   */
  lemma DryRunPredictsRun(lib: Library, rules: seq<Rule>, log: seq<EventRow>, payload: Json, now: int)
    ensures var run := ProcessMatched(lib, rules, log, payload, (_: nat) => now);
            var sim := Simulate(lib, rules, log, payload, now, 0, NoRule);
            && (run.task.Some? <==> sim.result.Triggered?)
            && (run.task.Some? ==> run.task == sim.task && sim.rule == Some(run.task.value.rule))
            && log <= run.log && run.log != [] && Reports(Last(run.log), sim)
  {
    if rules != [] {
      ProcessFollowsSimulation(lib, rules, log, log, payload, now, 0, NoRule);
    }
  }

  /** The rule that triggers: the first that passes its filter and is not blocked. */
  function FirstHit(lib: Library, rules: seq<Rule>, log: seq<EventRow>, payload: Json, now: int): Option<Rule> {
    if rules == [] then None
    else if lib.passes(rules[0].filters, payload) && !Blocked(lib, log, rules[0], payload, now) then Some(rules[0])
    else FirstHit(lib, rules[1..], log, payload, now)
  }

  lemma {:induction false} SimulationFindsFirstHit(lib: Library, rules: seq<Rule>, log: seq<EventRow>, payload: Json, now: int, i: nat, last: Preview)
    requires i <= |rules| && !last.result.Triggered?
    ensures var sim := Simulate(lib, rules, log, payload, now, i, last);
            var hit := FirstHit(lib, rules[i..], log, payload, now);
            && (sim.result.Triggered? <==> hit.Some?)
            && (hit.Some? ==> sim == PreviewOf(lib, hit.value, Triggered, payload))
    decreases |rules| - i
  {
    if i < |rules| {
      var rule := rules[i];
      assert rules[i..][1..] == rules[i + 1..];
      SimulationFindsFirstHit(lib, rules, log, payload, now, i + 1,
        PreviewOf(lib, rule, if lib.passes(rule.filters, payload) then SkippedDedup else SkippedFilter, payload));
    }
  }

  lemma {:induction false} ProjectHit(lib: Library, rules: seq<Rule>, source: string, eventType: string, project: string,
                                      log: seq<EventRow>, payload: Json, now: int)
    ensures var all := FirstHit(lib, Matched(rules, source, eventType, None), log, payload, now);
            var own := FirstHit(lib, Matched(rules, source, eventType, Some(project)), log, payload, now);
            && (own.Some? ==> own.value.projectId == Some(project) && all.Some?)
            && (all.Some? && all.value.projectId == Some(project) ==> own == all)
  {
    if rules != [] {
      hide Blocked;
      ProjectHit(lib, rules[1..], source, eventType, project, log, payload, now);
      MatchedStep(rules, source, eventType, None);
      MatchedStep(rules, source, eventType, Some(project));
      hide Matched;
      HitStep(lib, rules[0], Matched(rules[1..], source, eventType, None), log, payload, now);
      HitStep(lib, rules[0], Matched(rules[1..], source, eventType, Some(project)), log, payload, now);
      hide FirstHit;
    }
  }

  lemma MatchedStep(rules: seq<Rule>, source: string, eventType: string, project: Option<string>)
    requires rules != []
    ensures Matched(rules, source, eventType, project)
            == (if Matches(rules[0], source, eventType, project) then [rules[0]] else []) + Matched(rules[1..], source, eventType, project)
  {
  }

  lemma HitStep(lib: Library, r: Rule, rest: seq<Rule>, log: seq<EventRow>, payload: Json, now: int)
    ensures FirstHit(lib, [r] + rest, log, payload, now)
            == if lib.passes(r.filters, payload) && !Blocked(lib, log, r, payload, now) then Some(r)
               else FirstHit(lib, rest, log, payload, now)
    ensures [] + rest == rest
  {
    assert ([r] + rest)[1..] == rest;
  }

  /**
   * The preview of a project's webhook ignores the project. It names the task that the real run creates exactly
   * when the rule it reports belongs to the project, and a preview without a task is always right.
   */
  lemma ProjectDryRunExactly(lib: Library, rules: seq<Rule>, source: string, eventType: string, project: string,
                             log: seq<EventRow>, payload: Json, now: int)
    ensures var sim := Simulate(lib, Matched(rules, source, eventType, None), log, payload, now, 0, NoRule);
            var run := ProcessMatched(lib, Matched(rules, source, eventType, Some(project)), log, payload, (_: nat) => now);
            && (sim.result.Triggered? ==>
                  sim.rule.Some? && (run.task == sim.task <==> sim.rule.value.projectId == Some(project)))
            && (!sim.result.Triggered? ==> run.task == None)
  {
    var all, own := Matched(rules, source, eventType, None), Matched(rules, source, eventType, Some(project));
    var sim := Simulate(lib, all, log, payload, now, 0, NoRule);
    SimulationFindsFirstHit(lib, all, log, payload, now, 0, NoRule);
    SimulationFindsFirstHit(lib, own, log, payload, now, 0, NoRule);
    DryRunPredictsRun(lib, own, log, payload, now);
    ProjectHit(lib, rules, source, eventType, project, log, payload, now);
    assert all[0..] == all && own[0..] == own;
  }

  // ---------------------------------------------------------------- duplicates are spaced

  ghost predicate Nondecreasing(clock: nat -> int) {
    forall i: nat, j: nat :: i <= j ==> clock(i) <= clock(j)
  }

  /** Any two triggers of one rule with one key are further apart than the rule's window. */
  ghost predicate Spaced(rules: seq<Rule>, log: seq<EventRow>) {
    forall r, key, i, j :: r in rules && 0 <= i < j < |log| && IsTriggerOf(log[i], r, key) && IsTriggerOf(log[j], r, key) ==>
      log[j].createdAt - log[i].createdAt > Window(r)
  }

  ghost predicate Before(log: seq<EventRow>, t: int) {
    forall row :: row in log ==> row.createdAt <= t
  }

  lemma AddingKeepsSpaced(rules: seq<Rule>, log: seq<EventRow>, row: EventRow, checkedAt: int)
    requires Spaced(rules, log) && Before(log, checkedAt) && checkedAt <= row.createdAt
    requires forall r, key :: r in rules && IsTriggerOf(row, r, key) ==> !IsDuplicate(log, r, key, checkedAt)
    ensures Spaced(rules, log + [row]) && Before(log + [row], row.createdAt)
  {
    var longer := log + [row];
    forall r, key, i, j | r in rules && 0 <= i < j < |longer| && IsTriggerOf(longer[i], r, key) && IsTriggerOf(longer[j], r, key)
      ensures longer[j].createdAt - longer[i].createdAt > Window(r)
    {
      if j == |log| {
        assert log[i] in log;
      } else {
        assert log[j] == longer[j] && log[i] == longer[i];
      }
    }
  }

  ghost predicate IdsAreDistinct(rules: seq<Rule>) {
    forall a, b :: a in rules && b in rules && a.id == b.id ==> a == b
  }

  lemma {:induction false} ProcessKeepsSpaced(lib: Library, rules: seq<Rule>, matched: seq<Rule>, log: seq<EventRow>, payload: Json,
                                              clock: nat -> int, i: nat)
    requires i <= |matched| && IdsAreDistinct(rules) && (forall r :: r in matched ==> r in rules)
    requires Nondecreasing(clock) && Spaced(rules, log) && Before(log, clock(2 * i))
    ensures Spaced(rules, Process(lib, matched, log, payload, clock, i).log)
    ensures Before(Process(lib, matched, log, payload, clock, i).log, clock(2 * |matched|))
    decreases |matched| - i
  {
    assert clock(2 * i) <= clock(2 * |matched|);
    if i < |matched| {
      var rule := matched[i];
      var key := DedupKey(lib, rule, payload);
      var blocked := Blocked(lib, log, rule, payload, clock(2 * i));
      var row := if !lib.passes(rule.filters, payload) then EventRow(Some(rule.id), None, SkippedFilter, clock(2 * i + 1))
                 else EventRow(Some(rule.id), key, if blocked then SkippedDedup else Triggered, clock(2 * i + 1));
      assert rule in rules;
      assert clock(2 * i) <= clock(2 * i + 1) <= clock(2 * (i + 1)) <= clock(2 * |matched|);
      AddingKeepsSpaced(rules, log, row, clock(2 * i));
      if !row.result.Triggered? {
        ProcessKeepsSpaced(lib, rules, matched, log + [row], payload, clock, i + 1);
      }
    }
  }

  lemma {:induction false} MatchedAreRules(rules: seq<Rule>, source: string, eventType: string, project: Option<string>)
    ensures forall r :: r in Matched(rules, source, eventType, project) ==> r in rules
  {
    if rules != [] {
      MatchedAreRules(rules[1..], source, eventType, project);
      assert rules == [rules[0]] + rules[1..];
    }
  }

  /** One call of the webhook; its clock readings start at `clock(0)`. */
  datatype Call = Call(source: string, eventType: string, payload: Json, project: Option<string>, clock: nat -> int)

  function LogAfter(lib: Library, rules: seq<Rule>, log: seq<EventRow>, calls: seq<Call>): seq<EventRow> {
    if calls == [] then log else
      var c := Last(calls);
      ProcessMatched(lib, Matched(rules, c.source, c.eventType, c.project), LogAfter(lib, rules, log, calls[..|calls| - 1]),
                     c.payload, c.clock).log
  }

  /** The calls come one after the other on one nondecreasing clock. */
  ghost predicate Sequential(lib: Library, rules: seq<Rule>, log: seq<EventRow>, calls: seq<Call>) {
    calls != [] ==>
      && Sequential(lib, rules, log, calls[..|calls| - 1])
      && Nondecreasing(Last(calls).clock)
      && Before(LogAfter(lib, rules, log, calls[..|calls| - 1]), Last(calls).clock(0))
  }

  /** Over any sequential run of events, two triggers with the same rule and key are more than the window apart. */
  lemma {:induction false} TriggersStaySpaced(lib: Library, rules: seq<Rule>, log: seq<EventRow>, calls: seq<Call>)
    requires IdsAreDistinct(rules) && Spaced(rules, log) && Sequential(lib, rules, log, calls)
    ensures Spaced(rules, LogAfter(lib, rules, log, calls))
  {
    if calls != [] {
      TriggersStaySpaced(lib, rules, log, calls[..|calls| - 1]);
      var c, before := Last(calls), LogAfter(lib, rules, log, calls[..|calls| - 1]);
      var matched := Matched(rules, c.source, c.eventType, c.project);
      MatchedAreRules(rules, c.source, c.eventType, c.project);
      if matched == [] {
        assert c.clock(0) <= c.clock(1);
        AddingKeepsSpaced(rules, before, EventRow(None, None, SkippedNoRule, c.clock(1)), c.clock(0));
      } else {
        ProcessKeepsSpaced(lib, rules, matched, before, c.payload, c.clock, 0);
      }
    }
  }
}
