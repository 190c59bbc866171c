/** What the trigger service decides, told from the rules and the event log alone. */
module TriggerDecisions {
  import opened Prelude
  import opened Flatten
  import opened Filters
  import opened Triggers

  // ---------------------------------------------------------------- which rules apply

  /** An enabled rule for the source and the event type; if the event has a project, of that project. */
  predicate Applies(r: Rule, source: string, eventType: string, project: Option<string>) {
    && r.enabled && r.source == source
    && (r.eventType == "*" || r.eventType == eventType)
    && (project.None? || r.projectId == project)
  }

  lemma {:induction false} MatchedSplit(a: seq<Rule>, b: seq<Rule>, source: string, eventType: string, project: Option<string>)
    ensures Matched(a + b, source, eventType, project)
            == Matched(a, source, eventType, project) + Matched(b, source, eventType, project)
  {
    if a == [] {
      assert a + b == b;
    } else {
      MatchedSplit(a[1..], b, source, eventType, project);
      assert (a + b)[1..] == a[1..] + b;
      MatchedFirst(a, source, eventType, project);
      MatchedFirst(a + b, source, eventType, project);
      hide Matched, Matches;
    }
  }

  lemma MatchedFirst(rules: seq<Rule>, source: string, eventType: string, project: Option<string>)
    requires rules != []
    ensures Matched(rules, source, eventType, project)
            == (if Matches(rules[0], source, eventType, project) then [rules[0]] else []) + Matched(rules[1..], source, eventType, project)
  {
    hide Matches;
  }

  lemma MatchedOne(r: Rule, source: string, eventType: string, project: Option<string>)
    ensures Matched([r], source, eventType, project) == if Applies(r, source, eventType, project) then [r] else []
  {
    assert [r][1..] == [];
  }

  /** The matched rules are those that apply, in their order: the k-th has its place, with the k before it in front of it. */
  lemma {:induction false} PlaceOfMatched(rules: seq<Rule>, source: string, eventType: string, project: Option<string>, k: nat) returns (i: nat)
    requires rules != [] && k < |Matched(rules, source, eventType, project)|
    ensures i < |rules| && rules[i] == Matched(rules, source, eventType, project)[k]
    ensures Matched(rules[..i], source, eventType, project) == Matched(rules, source, eventType, project)[..k]
  {
    hide Matched, Applies;
    var init, last := rules[..|rules| - 1], rules[|rules| - 1];
    assert rules == init + [last];
    MatchedSplit(init, [last], source, eventType, project);
    MatchedOne(last, source, eventType, project);
    if k < |Matched(init, source, eventType, project)| {
      i := PlaceOfMatched(init, source, eventType, project, k);
      assert rules[..i] == init[..i];
    } else {
      i := |init|;
      assert rules[..i] == init;
    }
  }

  lemma {:induction false} MatchedExactly(rules: seq<Rule>, source: string, eventType: string, project: Option<string>)
    ensures forall r :: r in Matched(rules, source, eventType, project) <==> r in rules && Applies(r, source, eventType, project)
  {
    if rules != [] {
      var init, last := rules[..|rules| - 1], Last(rules);
      assert rules == init + [last];
      MatchedExactly(init, source, eventType, project);
      MatchedSplit(init, [last], source, eventType, project);
      MatchedOne(last, source, eventType, project);
      hide Matched;
    }
  }

  // ---------------------------------------------------------------- which rule triggers

  /** The text of a template: itself if it is empty, else what the renderer makes of it. */
  function TextOf(lib: Library, template: string, payload: Json): string {
    if template == "" then "" else lib.format(template, payload)
  }

  /** The event is a repetition for the rule: a task was triggered with the same key within the last hours, 24 if unset. */
  ghost predicate Repeats(lib: Library, log: seq<EventRow>, rule: Rule, payload: Json, now: int) {
    var key := TextOf(lib, rule.dedupTemplate, payload);
    && key != ""
    && exists row :: row in log && row.result.Triggered? && row.ruleId == Some(rule.id) && row.dedupKey == Some(key)
                     && row.createdAt >= now - (if rule.dedupWindowHours == 0 then 24 else rule.dedupWindowHours) * 3600
  }

  lemma RepeatsIsBlocked(lib: Library, log: seq<EventRow>, rule: Rule, payload: Json, now: int)
    ensures Blocked(lib, log, rule, payload, now) <==> Repeats(lib, log, rule, payload, now)
  {
    assert Hour == 3600;
  }

  ghost predicate Fires(lib: Library, log: seq<EventRow>, rule: Rule, payload: Json, now: int) {
    lib.passes(rule.filters, payload) && !Repeats(lib, log, rule, payload, now)
  }

  /** The row that is logged for a rule that was tried. */
  ghost predicate LogsTrial(lib: Library, log: seq<EventRow>, rule: Rule, payload: Json, checkedAt: int, writtenAt: int, row: EventRow) {
    && row.ruleId == Some(rule.id) && row.createdAt == writtenAt
    && (row.result.SkippedFilter? <==> !lib.passes(rule.filters, payload))
    && (row.result.Triggered? <==> Fires(lib, log, rule, payload, checkedAt))
    && (row.result.SkippedDedup? <==> lib.passes(rule.filters, payload) && Repeats(lib, log, rule, payload, checkedAt))
    && row.dedupKey == if row.result.SkippedFilter? || TextOf(lib, rule.dedupTemplate, payload) == "" then None
                       else Some(TextOf(lib, rule.dedupTemplate, payload))
  }

  ghost predicate CreatesFor(lib: Library, rule: Rule, payload: Json, task: Task) {
    && task.rule == rule && task.title == TextOf(lib, rule.titleTemplate, payload)
    && task.description == if TextOf(lib, rule.descTemplate, payload) == "" then None else Some(TextOf(lib, rule.descTemplate, payload))
  }

  /**
   * The rules from i on were tried up to `tried`, against the log as it was: one row is logged for each, only the last
   * one tried may fire, and then it creates its task; without a task all were tried and none fires.
   */
  ghost predicate Trials(lib: Library, matched: seq<Rule>, log: seq<EventRow>, seen: seq<EventRow>, payload: Json,
                         clock: nat -> int, i: nat, run: Processed, tried: nat) {
    && i <= tried <= |matched| && seen <= run.log && |run.log| == |seen| + tried - i
    && (forall k: nat :: i <= k < tried ==>
          LogsTrial(lib, log, matched[k], payload, clock(2 * k), clock(2 * k + 1), run.log[|seen| + k - i]))
    && (forall k: nat :: i <= k < tried && Fires(lib, log, matched[k], payload, clock(2 * k)) ==> k == tried - 1 && run.task.Some?)
    && (run.task.Some? || tried == |matched|)
    && (run.task.Some? ==>
          && i < tried && Fires(lib, log, matched[tried - 1], payload, clock(2 * (tried - 1)))
          && CreatesFor(lib, matched[tried - 1], payload, run.task.value))
  }

  ghost predicate SameRepeats(lib: Library, log: seq<EventRow>, seen: seq<EventRow>, payload: Json) {
    forall r, now :: Repeats(lib, seen, r, payload, now) == Repeats(lib, log, r, payload, now)
  }

  lemma {:induction false} TrialsExactly(lib: Library, matched: seq<Rule>, log: seq<EventRow>, seen: seq<EventRow>, payload: Json,
                                         clock: nat -> int, i: nat) returns (tried: nat)
    requires i <= |matched| && SameRepeats(lib, log, seen, payload)
    ensures Trials(lib, matched, log, seen, payload, clock, i, Process(lib, matched, seen, payload, clock, i), tried)
    decreases |matched| - i
  {
    if i == |matched| {
      tried := i;
    } else if Fires(lib, log, matched[i], payload, clock(2 * i)) {
      LastTrial(lib, matched, log, seen, payload, clock, i);
      tried := i + 1;
    } else {
      var row := TrialRow(lib, log, matched[i], payload, clock(2 * i), clock(2 * i + 1));
      SkippedTrial(lib, matched, log, seen, payload, clock, i);
      StillSame(lib, log, seen, row, payload);
      hide *;
      tried := TrialsExactly(lib, matched, log, seen + [row], payload, clock, i + 1);
      OneMoreTrial(lib, matched, log, seen, row, payload, clock, i, Process(lib, matched, seen + [row], payload, clock, i + 1), tried);
    }
  }

  lemma LastTrial(lib: Library, matched: seq<Rule>, log: seq<EventRow>, seen: seq<EventRow>, payload: Json, clock: nat -> int, i: nat)
    requires i < |matched| && SameRepeats(lib, log, seen, payload) && Fires(lib, log, matched[i], payload, clock(2 * i))
    ensures Trials(lib, matched, log, seen, payload, clock, i, Process(lib, matched, seen, payload, clock, i), i + 1)
  {
    var rule := matched[i];
    var row, task := EventRow(Some(rule.id), DedupKey(lib, rule, payload), Triggered, clock(2 * i + 1)), TaskFor(lib, rule, payload);
    RepeatsIsBlocked(lib, seen, rule, payload, clock(2 * i));
    assert Repeats(lib, seen, rule, payload, clock(2 * i)) == Repeats(lib, log, rule, payload, clock(2 * i));
    hide Repeats, Blocked;
    assert Process(lib, matched, seen, payload, clock, i) == Processed(seen + [row], Some(task));
    assert LogsTrial(lib, log, rule, payload, clock(2 * i), clock(2 * i + 1), row);
    assert CreatesFor(lib, rule, payload, task);
    hide *;
    HitEndsTrials(lib, matched, log, seen, payload, clock, i, row, task);
  }

  lemma HitEndsTrials(lib: Library, matched: seq<Rule>, log: seq<EventRow>, seen: seq<EventRow>, payload: Json, clock: nat -> int,
                      i: nat, row: EventRow, task: Task)
    requires i < |matched| && Fires(lib, log, matched[i], payload, clock(2 * i)) && CreatesFor(lib, matched[i], payload, task)
    requires LogsTrial(lib, log, matched[i], payload, clock(2 * i), clock(2 * i + 1), row)
    ensures Trials(lib, matched, log, seen, payload, clock, i, Processed(seen + [row], Some(task)), i + 1)
  {
    hide LogsTrial, Fires, CreatesFor;
  }

  lemma SkippedTrial(lib: Library, matched: seq<Rule>, log: seq<EventRow>, seen: seq<EventRow>, payload: Json, clock: nat -> int, i: nat)
    requires i < |matched| && SameRepeats(lib, log, seen, payload) && !Fires(lib, log, matched[i], payload, clock(2 * i))
    ensures var row := TrialRow(lib, log, matched[i], payload, clock(2 * i), clock(2 * i + 1));
            Process(lib, matched, seen, payload, clock, i) == Process(lib, matched, seen + [row], payload, clock, i + 1)
  {
    RepeatsIsBlocked(lib, seen, matched[i], payload, clock(2 * i));
    assert Repeats(lib, seen, matched[i], payload, clock(2 * i)) == Repeats(lib, log, matched[i], payload, clock(2 * i));
    hide Repeats, Blocked;
  }

  lemma StillSame(lib: Library, log: seq<EventRow>, seen: seq<EventRow>, row: EventRow, payload: Json)
    requires SameRepeats(lib, log, seen, payload) && !row.result.Triggered?
    ensures SameRepeats(lib, log, seen + [row], payload)
  {
    hide Repeats;
    forall r, now ensures Repeats(lib, seen + [row], r, payload, now) == Repeats(lib, log, r, payload, now) {
      SkippedRowsDoNotRepeat(lib, seen, row, r, payload, now);
      assert Repeats(lib, seen, r, payload, now) == Repeats(lib, log, r, payload, now);
    }
  }

  lemma OneMoreTrial(lib: Library, matched: seq<Rule>, log: seq<EventRow>, seen: seq<EventRow>, row: EventRow, payload: Json,
                     clock: nat -> int, i: nat, run: Processed, tried: nat)
    requires i < |matched| && !Fires(lib, log, matched[i], payload, clock(2 * i))
    requires LogsTrial(lib, log, matched[i], payload, clock(2 * i), clock(2 * i + 1), row)
    requires Trials(lib, matched, log, seen + [row], payload, clock, i + 1, run, tried)
    ensures Trials(lib, matched, log, seen, payload, clock, i, run, tried)
  {
    hide LogsTrial, Fires, CreatesFor;
    var more := seen + [row];
    assert run.log[|seen|] == more[|seen|];
    forall k: nat | i <= k < tried
      ensures LogsTrial(lib, log, matched[k], payload, clock(2 * k), clock(2 * k + 1), run.log[|seen| + k - i])
    {
      if k > i { assert |seen| + k - i == |more| + k - (i + 1); }
    }
  }

  ghost function TrialRow(lib: Library, log: seq<EventRow>, rule: Rule, payload: Json, checkedAt: int, writtenAt: int): (row: EventRow)
    requires !Fires(lib, log, rule, payload, checkedAt)
    ensures LogsTrial(lib, log, rule, payload, checkedAt, writtenAt, row) && !row.result.Triggered?
  {
    if !lib.passes(rule.filters, payload) then EventRow(Some(rule.id), None, SkippedFilter, writtenAt)
    else EventRow(Some(rule.id), DedupKey(lib, rule, payload), SkippedDedup, writtenAt)
  }

  lemma SkippedRowsDoNotRepeat(lib: Library, log: seq<EventRow>, row: EventRow, rule: Rule, payload: Json, now: int)
    requires !row.result.Triggered?
    ensures Repeats(lib, log + [row], rule, payload, now) == Repeats(lib, log, rule, payload, now)
  {
    assert forall x :: x in log + [row] <==> x in log || x == row;
  }

  /**
   * An event creates a task exactly if some rule that applies to it passes its filter and is no repetition. The task is
   * that of the first such rule, with its rendered title and description.
   */
  lemma CreatesTaskExactly(lib: Library, rules: seq<Rule>, log: seq<EventRow>, source: string, eventType: string,
                           project: Option<string>, payload: Json, now: int)
    ensures var run := ProcessMatched(lib, Matched(rules, source, eventType, project), log, payload, (_: nat) => now);
            && (run.task.Some? <==> exists r :: r in rules && Applies(r, source, eventType, project) && Fires(lib, log, r, payload, now))
            && (run.task.Some? ==> exists i: nat :: IsFirstToFire(lib, rules, log, source, eventType, project, payload, now, i)
                                                    && CreatesFor(lib, rules[i], payload, run.task.value))
  {
    var matched := Matched(rules, source, eventType, project);
    var run := ProcessMatched(lib, matched, log, payload, (_: nat) => now);
    MatchedExactly(rules, source, eventType, project);
    if matched == [] {
      assert forall r :: r in rules ==> r !in matched;
    } else {
      assert run == Process(lib, matched, log, payload, (_: nat) => now, 0);
      var tried := TrialsExactly(lib, matched, log, log, payload, (_: nat) => now, 0);
      assert Trials(lib, matched, log, log, payload, (_: nat) => now, 0, run, tried);
      hide Matched, Fires, CreatesFor, LogsTrial, Process, ProcessMatched, Applies, IsFirstToFire;
      if run.task.Some? {
        var i := FirstPlace(lib, rules, log, source, eventType, project, payload, now, tried - 1);
      } else {
        forall r | r in rules && Applies(r, source, eventType, project) ensures !Fires(lib, log, r, payload, now) {
          assert r in matched;
          var m :| 0 <= m < |matched| && matched[m] == r;
        }
      }
    }
  }

  lemma FirstPlace(lib: Library, rules: seq<Rule>, log: seq<EventRow>, source: string, eventType: string,
                   project: Option<string>, payload: Json, now: int, k: nat) returns (i: nat)
    requires rules != [] && k < |Matched(rules, source, eventType, project)|
    requires Fires(lib, log, Matched(rules, source, eventType, project)[k], payload, now)
    requires forall m :: 0 <= m < k ==> !Fires(lib, log, Matched(rules, source, eventType, project)[m], payload, now)
    ensures IsFirstToFire(lib, rules, log, source, eventType, project, payload, now, i)
    ensures rules[i] in rules && rules[i] == Matched(rules, source, eventType, project)[k]
  {
    var matched := Matched(rules, source, eventType, project);
    MatchedExactly(rules, source, eventType, project);
    assert matched[k] in matched;
    i := PlaceOfMatched(rules, source, eventType, project, k);
    MatchedExactly(rules[..i], source, eventType, project);
    hide Matched, Fires, Applies;
    forall j | 0 <= j < i && Applies(rules[j], source, eventType, project) ensures !Fires(lib, log, rules[j], payload, now) {
      assert rules[..i][j] == rules[j] && rules[j] in rules[..i];
      var m :| 0 <= m < k && matched[..k][m] == rules[j];
      assert matched[m] == rules[j];
    }
  }

  /** The i-th rule applies and fires, and no earlier one does both. */
  ghost predicate IsFirstToFire(lib: Library, rules: seq<Rule>, log: seq<EventRow>, source: string, eventType: string,
                                project: Option<string>, payload: Json, now: int, i: nat) {
    && i < |rules| && Applies(rules[i], source, eventType, project) && Fires(lib, log, rules[i], payload, now)
    && forall j :: 0 <= j < i && Applies(rules[j], source, eventType, project) ==> !Fires(lib, log, rules[j], payload, now)
  }

  lemma MatchedNeedsRule(rules: seq<Rule>, source: string, eventType: string, project: Option<string>)
    ensures Matched(rules, source, eventType, project) != [] ==> exists r :: r in rules && Applies(r, source, eventType, project)
  {
    MatchedExactly(rules, source, eventType, project);
    var matched := Matched(rules, source, eventType, project);
    if matched != [] {
      assert matched[0] in matched;
    }
  }

  /** Without a rule that applies, one row says so. */
  lemma NoRuleIsLogged(lib: Library, rules: seq<Rule>, log: seq<EventRow>, source: string, eventType: string,
                       project: Option<string>, payload: Json, clock: nat -> int)
    requires forall r :: r in rules ==> !Applies(r, source, eventType, project)
    ensures ProcessMatched(lib, Matched(rules, source, eventType, project), log, payload, clock)
            == Processed(log + [EventRow(None, None, SkippedNoRule, clock(1))], None)
  {
    MatchedNeedsRule(rules, source, eventType, project);
  }

  // ---------------------------------------------------------------- what the dry run reports

  /** The report names the rule with its key and with the task it would create. */
  ghost predicate ReportsOn(lib: Library, rule: Rule, payload: Json, preview: Preview) {
    && preview.rule == Some(rule)
    && preview.dedupKey == (if TextOf(lib, rule.dedupTemplate, payload) == "" then None else Some(TextOf(lib, rule.dedupTemplate, payload)))
    && preview.task.Some? && CreatesFor(lib, rule, payload, preview.task.value)
  }

  /** The dry run reports on the first rule that fires, and otherwise on the last one tried with the reason it is skipped. */
  lemma {:induction false} PreviewExactly(lib: Library, matched: seq<Rule>, log: seq<EventRow>, payload: Json, now: int, i: nat, last: Preview)
    returns (k: nat)
    requires i < |matched|
    ensures var sim := Simulate(lib, matched, log, payload, now, i, last);
            && i <= k < |matched| && ReportsOn(lib, matched[k], payload, sim)
            && (forall j :: i <= j < k ==> !Fires(lib, log, matched[j], payload, now))
            && (sim.result.Triggered? <==> Fires(lib, log, matched[k], payload, now))
            && (sim.result.Triggered? || k == |matched| - 1)
            && (sim.result.SkippedFilter? <==> !lib.passes(matched[k].filters, payload))
            && !sim.result.SkippedNoRule?
    decreases |matched| - i
  {
    var rule := matched[i];
    RepeatsIsBlocked(lib, log, rule, payload, now);
    hide Repeats, Blocked;
    k := i;
    if !Fires(lib, log, rule, payload, now) && i + 1 < |matched| {
      k := PreviewExactly(lib, matched, log, payload, now, i + 1,
        PreviewOf(lib, rule, if lib.passes(rule.filters, payload) then SkippedDedup else SkippedFilter, payload));
    }
  }
}
