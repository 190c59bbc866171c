/** Gate calls seen from outside: which verdict counts, which poll decides, when a gate is opened, and which output passes. */
module GateCalls {
  import opened Prelude
  import opened HumanGates

  // ---------------------------------------------------------------- time and verdicts

  function TotalWait(ticks: seq<Tick>): nat {
    if ticks == [] then 0 else TotalWait(ticks[..|ticks| - 1]) + if Last(ticks).Wait? then Last(ticks).seconds else 0
  }

  lemma {:induction false} ClockExactly(d: Desk, ticks: seq<Tick>)
    ensures Elapse(d, ticks).now == d.now + TotalWait(ticks)
  {
    if ticks != [] {
      ClockExactly(d, ticks[..|ticks| - 1]);
    }
  }

  /** The i-th tick is the last review of the gate. */
  ghost predicate IsLastReview(ticks: seq<Tick>, gate: nat, i: nat) {
    i < |ticks| && ticks[i].Review? && ticks[i].gate == gate
    && forall j :: i < j < |ticks| ==> !(ticks[j].Review? && ticks[j].gate == gate)
  }

  ghost predicate Unreviewed(ticks: seq<Tick>, gate: nat) {
    forall i :: 0 <= i < |ticks| && ticks[i].Review? ==> ticks[i].gate != gate
  }

  lemma {:induction false} UnreviewedIsUnchanged(d: Desk, ticks: seq<Tick>, gate: nat)
    requires gate < |d.gates| && Unreviewed(ticks, gate)
    ensures Elapse(d, ticks).gates[gate] == d.gates[gate]
  {
    if ticks != [] {
      var init := ticks[..|ticks| - 1];
      assert forall i :: 0 <= i < |init| ==> init[i] == ticks[i];
      UnreviewedIsUnchanged(d, init, gate);
      assert !(Last(ticks).Review? && Last(ticks).gate == gate);
    }
  }

  lemma ReviewSets(d: Desk, gate: nat, verdict: Verdict)
    requires gate < |d.gates|
    ensures var g := Happen(d, Review(gate, verdict)).gates[gate];
            && (g.status.Approved? <==> verdict.Approve?)
            && (g.status.Rejected? <==> verdict.Reject?)
            && (g.status.Revised? <==> verdict.Revise?)
            && g.reviewedAt == Some(d.now)
  {
  }

  lemma {:induction false} ElapseSplit(d: Desk, a: seq<Tick>, b: seq<Tick>)
    ensures Elapse(d, a + b) == Elapse(Elapse(d, a), b)
  {
    hide Happen;
    if b == [] {
      assert a + b == a;
    } else {
      ElapseSplit(d, a, b[..|b| - 1]);
      assert (a + b)[..|a + b| - 1] == a + b[..|b| - 1];
    }
  }

  /** A gate stands as its last review left it, stamped with the time of that review; without a review it is unchanged. */
  lemma LastVerdictCounts(d: Desk, ticks: seq<Tick>, gate: nat, i: nat)
    requires gate < |d.gates| && IsLastReview(ticks, gate, i)
    ensures var g := Elapse(d, ticks).gates[gate];
            && (g.status.Approved? <==> ticks[i].verdict.Approve?)
            && (g.status.Rejected? <==> ticks[i].verdict.Reject?)
            && (g.status.Revised? <==> ticks[i].verdict.Revise?)
            && g.reviewedAt == Some(d.now + TotalWait(ticks[..i]))
  {
    LateIsUnreviewed(ticks, gate, i);
    hide *;
    var before := Elapse(d, ticks[..i]);
    ClockExactly(d, ticks[..i]);
    ReviewSets(before, gate, ticks[i].verdict);
    ElapseAround(d, ticks, i);
    UnreviewedIsUnchanged(Happen(before, ticks[i]), ticks[i + 1..], gate);
  }

  lemma LateIsUnreviewed(ticks: seq<Tick>, gate: nat, i: nat)
    requires IsLastReview(ticks, gate, i)
    ensures i < |ticks| && ticks[i] == Review(gate, ticks[i].verdict) && Unreviewed(ticks[i + 1..], gate)
  {
    var late := ticks[i + 1..];
    assert forall j :: 0 <= j < |late| ==> late[j] == ticks[i + 1 + j];
  }

  lemma ElapseAround(d: Desk, ticks: seq<Tick>, i: nat)
    requires i < |ticks|
    ensures Elapse(d, ticks) == Elapse(Happen(Elapse(d, ticks[..i]), ticks[i]), ticks[i + 1..])
  {
    hide *;
    ElapseSplit(d, ticks[..i + 1], ticks[i + 1..]);
    ElapseSplit(d, ticks[..i], [ticks[i]]);
    ElapseOne(Elapse(d, ticks[..i]), ticks[i]);
    assert ticks[..i + 1] + ticks[i + 1..] == ticks && ticks[..i] + [ticks[i]] == ticks[..i + 1];
  }

  lemma ElapseOne(d: Desk, t: Tick)
    ensures Elapse(d, [t]) == Happen(d, t)
  {
    assert [t][..0] == [];
  }

  // ---------------------------------------------------------------- which poll decides

  /** What the worker has before it after k polls. */
  ghost function SeenAfter(d: Desk, polls: seq<Poll>, k: nat): (e: Desk)
    requires k <= |polls|
    ensures |e.gates| == |d.gates|
  {
    if k == 0 then d else Elapse(SeenAfter(d, polls, k - 1), polls[k - 1].ticks)
  }

  ghost predicate Decides(d: Desk, gate: nat, start: int, maxWait: int, polls: seq<Poll>, k: nat)
    requires gate < |d.gates|
  {
    && k < |polls|
    && var seen := SeenAfter(d, polls, k + 1);
       seen.now > start + maxWait || polls[k].taskCancelled || (polls[k].readable && !seen.gates[gate].status.Pending?)
  }

  lemma {:induction false} SeenLater(d: Desk, polls: seq<Poll>, k: nat)
    requires k < |polls|
    ensures SeenAfter(d, polls, k + 1) == SeenAfter(Elapse(d, polls[0].ticks), polls[1..], k)
  {
    if k > 0 {
      SeenLater(d, polls, k - 1);
    }
  }

  /**
   * Waiting ends at the first poll that decides: by timeout before cancellation before the gate's status. If none
   * does before the worker stops, the answer is "cancelled".
   */
  lemma {:induction false} FirstPollDecides(d: Desk, gate: nat, start: int, maxWait: int, polls: seq<Poll>) returns (k: nat)
    requires gate < |d.gates|
    ensures k <= |polls| && forall j: nat :: j < k ==> !Decides(d, gate, start, maxWait, polls, j)
    ensures k == |polls| ==> WaitAt(d, gate, start, maxWait, polls) == (SeenAfter(d, polls, k), GateCancelled)
    ensures k < |polls| ==>
              var (seen, answer) := WaitAt(d, gate, start, maxWait, polls);
              && Decides(d, gate, start, maxWait, polls, k) && seen == SeenAfter(d, polls, k + 1)
              && answer == if seen.now > start + maxWait then GateTimeout
                           else if polls[k].taskCancelled then GateCancelled
                           else if seen.gates[gate].status.Approved? then GateApproved
                           else if seen.gates[gate].status.Rejected? then GateRejected
                           else GateRevised
    decreases |polls|
  {
    k := 0;
    if polls != [] {
      SeenLater(d, polls, 0);
      var seen := Elapse(d, polls[0].ticks);
      if !Decides(d, gate, start, maxWait, polls, 0) {
        var later := FirstPollDecides(seen, gate, start, maxWait, polls[1..]);
        k := later + 1;
        if later < |polls| - 1 { SeenLater(d, polls, later + 1); } else { SeenLater(d, polls, later); }
        forall j: nat | j < k ensures !Decides(d, gate, start, maxWait, polls, j) {
          if j > 0 {
            SeenLater(d, polls, j);
            assert !Decides(seen, gate, start, maxWait, polls[1..], j - 1);
          }
        }
        if later < |polls| - 1 {
          assert Decides(seen, gate, start, maxWait, polls[1..], later);
        }
      }
    }
  }

  // ---------------------------------------------------------------- when a gate is opened

  /** A gate of the call's task and type for the stage. */
  predicate IsOf(g: Gate, cfg: Setting, stage: Stage) {
    g.taskId == cfg.taskId && g.gateType == cfg.gateType && g.stage == Some(stage.name)
  }

  /** The newest gate of the stage is approved, and not known to be older than the stage's completion. */
  ghost predicate StandsApproved(d: Desk, cfg: Setting, stage: Stage) {
    exists r: nat ::
      && r < |d.gates| && IsOf(d.gates[r], cfg, stage) && d.gates[r].status.Approved?
      && (forall j :: r < j < |d.gates| ==> !IsOf(d.gates[j], cfg, stage))
      && (d.gates[r].reviewedAt.None? || stage.completedAt.None? || d.gates[r].reviewedAt.value >= stage.completedAt.value)
  }

  ghost predicate HasPending(d: Desk, cfg: Setting, stage: Stage) {
    exists j :: 0 <= j < |d.gates| && d.gates[j].status.Pending? && IsOf(d.gates[j], cfg, stage)
  }

  /**
   * A visit opens a gate exactly when the stage has no pending one and does not stand approved; the new gate is the
   * stage's own, dated now, with the number of retries. A stage that stands approved passes at once and changes nothing.
   */
  lemma OpensExactly(d: Desk, cfg: Setting, stage: Stage, retry: nat, polls: seq<Poll>)
    ensures var (e, answer) := AtGate(d, cfg, stage, retry, polls);
            && (HasPending(d, cfg, stage) ==> |e.gates| == |d.gates|)
            && (!HasPending(d, cfg, stage) && StandsApproved(d, cfg, stage) ==> e == d && answer == GateApproved)
            && (!HasPending(d, cfg, stage) && !StandsApproved(d, cfg, stage) ==>
                  && |e.gates| == |d.gates| + 1
                  && var g := e.gates[|d.gates|];
                     IsOf(g, cfg, stage) && g.createdAt == d.now && g.retryCount == retry)
  {
    FirstPendingFound(d.gates, cfg.taskId, cfg.gateType, stage.name, 0);
    NewestFound(d.gates, cfg.taskId, cfg.gateType, stage.name, |d.gates|);
    var pending := FirstPending(d.gates, cfg.taskId, cfg.gateType, stage.name, 0);
    if pending.Some? {
      WaitingIsLater(d, pending.value, d.now, cfg.maxWaitSeconds, polls);
    } else {
      var withGate := Open(d, cfg, stage, retry);
      WaitingIsLater(withGate, |d.gates|, d.now, cfg.maxWaitSeconds, polls);
      hide WaitAt;
    }
  }

  // ---------------------------------------------------------------- what one call comes to

  function VisitOf(p: Progress, cfg: Setting, a: Attempt): (Desk, Answer) {
    AtGate(p.desk, cfg, p.stage, p.rejections + p.revisions, a.polls)
  }

  /** The visit asks for another execution, and that yields an output. */
  predicate GoesOn(p: Progress, cfg: Setting, a: Attempt) {
    && (VisitOf(p, cfg, a).1.GateRevised? || (VisitOf(p, cfg, a).1.GateRejected? && p.rejections + p.revisions < cfg.maxRetries))
    && a.run.RunYields?
  }

  /** Then the new output counts, completed at the time the execution was, and the retry is counted by its cause. */
  function NextProgress(p: Progress, cfg: Setting, a: Attempt): Progress
    requires a.run.RunYields?
  {
    var (d, answer) := VisitOf(p, cfg, a);
    var completed := Elapse(d, a.run.before);
    Progress(Elapse(completed, a.run.after), Stage(p.stage.name, Some(completed.now)), a.run.output,
             p.rejections + if answer.GateRejected? then 1 else 0, p.revisions + if answer.GateRevised? then 1 else 0)
  }

  /** Where a call stands before attempt k, if it gets there. */
  ghost function Reached(p: Progress, cfg: Setting, attempts: seq<Attempt>, k: nat): Option<Progress>
    requires k <= |attempts|
  {
    if k == 0 then Some(p) else
      var q := Reached(p, cfg, attempts, k - 1);
      if q.Some? && GoesOn(q.value, cfg, attempts[k - 1]) then Some(NextProgress(q.value, cfg, attempts[k - 1])) else None
  }

  lemma {:induction false} ReachedLater(p: Progress, cfg: Setting, attempts: seq<Attempt>, k: nat)
    requires k < |attempts| && GoesOn(p, cfg, attempts[0])
    ensures Reached(p, cfg, attempts, k + 1) == Reached(NextProgress(p, cfg, attempts[0]), cfg, attempts[1..], k)
  {
    hide GoesOn, NextProgress;
    if k > 0 {
      ReachedLater(p, cfg, attempts, k - 1);
    } else {
      assert Reached(p, cfg, attempts, 0) == Some(p);
    }
  }

  /** How a call ends whose last visit is made with `q` before it. */
  ghost predicate EndsAt(q: Progress, cfg: Setting, a: Attempt, e: Ending) {
    var (d, answer) := VisitOf(q, cfg, a);
    match answer
    case GateApproved => e == Passed(q.(desk := d))
    case GateTimeout => e == Refused(q.(desk := d), TimedOut)
    case GateCancelled => e == Refused(q.(desk := d), WasCancelled)
    case GateRejected =>
      if q.rejections + q.revisions >= cfg.maxRetries then e == Refused(q.(desk := d), RejectedForGood)
      else a.run.RunFails? && e.Refused? && e.reason.RunFailed? && e.p.output == q.output && e.p.stage == q.stage
    case GateRevised => a.run.RunFails? && e.Refused? && e.reason.RunFailed? && e.p.output == q.output && e.p.stage == q.stage
  }

  lemma GoingOn(p: Progress, cfg: Setting, attempts: seq<Attempt>)
    requires attempts != [] && GoesOn(p, cfg, attempts[0])
    ensures attempts[0].run.RunYields?
    ensures Handle(p, cfg, attempts) == Handle(NextProgress(p, cfg, attempts[0]), cfg, attempts[1..])
  {
    hide AtGate, Elapse;
  }

  lemma NotGoingOn(p: Progress, cfg: Setting, attempts: seq<Attempt>)
    requires attempts != [] && !GoesOn(p, cfg, attempts[0])
    ensures EndsAt(p, cfg, attempts[0], Handle(p, cfg, attempts))
  {
    hide AtGate, Elapse;
  }

  /** A call goes on as long as its visits ask for another execution that yields an output, and ends by its last visit. */
  lemma {:induction false} CallFollowsAnswers(p: Progress, cfg: Setting, attempts: seq<Attempt>) returns (k: nat)
    ensures k <= |attempts| && Reached(p, cfg, attempts, k).Some?
    ensures k == |attempts| ==> Handle(p, cfg, attempts) == InProgress(Reached(p, cfg, attempts, k).value)
    ensures k < |attempts| ==> EndsAt(Reached(p, cfg, attempts, k).value, cfg, attempts[k], Handle(p, cfg, attempts))
    decreases |attempts|
  {
    hide GoesOn, EndsAt, NextProgress, AtGate;
    k := 0;
    if attempts != [] {
      if GoesOn(p, cfg, attempts[0]) {
        GoingOn(p, cfg, attempts);
        var later := CallFollowsAnswers(NextProgress(p, cfg, attempts[0]), cfg, attempts[1..]);
        if later < |attempts| { ReachedLater(p, cfg, attempts, later); }
        k := later + 1;
        hide Handle;
      } else {
        NotGoingOn(p, cfg, attempts);
      }
    }
  }

  lemma {:induction false} ReachedCounts(p: Progress, cfg: Setting, attempts: seq<Attempt>, k: nat)
    requires k <= |attempts| && Reached(p, cfg, attempts, k).Some?
    ensures var q := Reached(p, cfg, attempts, k).value;
            q.rejections + q.revisions == p.rejections + p.revisions + k && (k == 0 ==> q == p)
  {
    hide AtGate;
    if k > 0 {
      ReachedCounts(p, cfg, attempts, k - 1);
    }
  }

  /**
   * The output that passes is the one the call was made with if there was no re-execution, and otherwise that of the
   * last re-execution, whose clock is the recorded completion.
   */
  lemma PassedOutputIsTheLast(p: Progress, cfg: Setting, attempts: seq<Attempt>)
    requires Handle(p, cfg, attempts).Passed?
    ensures var q := Handle(p, cfg, attempts).p;
            var k := q.rejections + q.revisions - (p.rejections + p.revisions);
            && 0 <= k < |attempts|
            && (k == 0 ==> q.output == p.output && q.stage == p.stage)
            && (k > 0 ==>
                  && Reached(p, cfg, attempts, k - 1).Some?
                  && attempts[k - 1].run.RunYields? && q.output == attempts[k - 1].run.output
                  && q.stage.name == p.stage.name
                  && var visited := VisitOf(Reached(p, cfg, attempts, k - 1).value, cfg, attempts[k - 1]).0;
                     q.stage.completedAt == Some(visited.now + TotalWait(attempts[k - 1].run.before)))
  {
    hide Handle, AtGate;
    var k := CallFollowsAnswers(p, cfg, attempts);
    ReachedCounts(p, cfg, attempts, k);
    if k > 0 {
      var before := Reached(p, cfg, attempts, k - 1).value;
      ClockExactly(VisitOf(before, cfg, attempts[k - 1]).0, attempts[k - 1].run.before);
      ReachedKeepsName(p, cfg, attempts, k);
    }
  }

  lemma {:induction false} ReachedKeepsName(p: Progress, cfg: Setting, attempts: seq<Attempt>, k: nat)
    requires k <= |attempts| && Reached(p, cfg, attempts, k).Some?
    ensures Reached(p, cfg, attempts, k).value.stage.name == p.stage.name
  {
    hide AtGate;
    if k > 0 {
      ReachedKeepsName(p, cfg, attempts, k - 1);
    }
  }
}
