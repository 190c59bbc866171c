/** The human-gate handshake: gates are opened, reviewed at any time, and a stage's output passes only on approval. */
module HumanGates {
  import opened Prelude

  datatype Status = Pending | Approved | Rejected | Revised

  /** A row of the gate table; its id is its position. `stage` is the stage its content names. */
  datatype Gate = Gate(
    taskId: string,
    gateType: string,
    stage: Option<string>,
    status: Status,
    createdAt: int,
    reviewedAt: Option<int>,
    retryCount: int)

  datatype Verdict = Approve | Reject | Revise

  /** What happens outside the worker: time passes, or somebody reviews a gate, resolved or not. */
  datatype Tick = Wait(seconds: nat) | Review(gate: nat, verdict: Verdict)

  datatype Desk = Desk(gates: seq<Gate>, now: int)

  function StatusAfter(v: Verdict): Status {
    match v case Approve => Approved case Reject => Rejected case Revise => Revised
  }

  function Happen(d: Desk, t: Tick): (e: Desk)
    ensures |e.gates| == |d.gates|
  {
    match t
    case Wait(seconds) => d.(now := d.now + seconds)
    case Review(g, verdict) =>
      if g < |d.gates| then
        d.(gates := d.gates[g := d.gates[g].(status := StatusAfter(verdict), reviewedAt := Some(d.now))])
      else d
  }

  function Elapse(d: Desk, ticks: seq<Tick>): (e: Desk)
    ensures |e.gates| == |d.gates|
  {
    if ticks == [] then d else Happen(Elapse(d, ticks[..|ticks| - 1]), Last(ticks))
  }

  // ---------------------------------------------------------------- waiting at one gate

  /** A gate of this task, type and stage. */
  predicate Concerns(g: Gate, taskId: string, gateType: string, stage: string) {
    g.taskId == taskId && g.gateType == gateType && g.stage == Some(stage)
  }

  function FirstPending(gates: seq<Gate>, taskId: string, gateType: string, stage: string, i: nat): (r: Option<nat>)
    requires i <= |gates|
    ensures r.Some? ==> r.value < |gates|
    decreases |gates| - i
  {
    if i == |gates| then None
    else if gates[i].status.Pending? && Concerns(gates[i], taskId, gateType, stage) then Some(i)
    else FirstPending(gates, taskId, gateType, stage, i + 1)
  }

  /** The newest gate for the stage among the first n; rows are created in clock order. */
  function Newest(gates: seq<Gate>, taskId: string, gateType: string, stage: string, n: nat): (r: Option<nat>)
    requires n <= |gates|
    ensures r.Some? ==> r.value < n
  {
    if n == 0 then None
    else if Concerns(gates[n - 1], taskId, gateType, stage) then Some(n - 1)
    else Newest(gates, taskId, gateType, stage, n - 1)
  }

  /** What the worker meets at each poll; the script ends when the worker is stopped. */
  datatype Poll = Poll(ticks: seq<Tick>, taskCancelled: bool, readable: bool)

  datatype Answer = GateApproved | GateRejected | GateRevised | GateTimeout | GateCancelled

  datatype Stage = Stage(name: string, completedAt: Option<int>)

  datatype Setting = Setting(taskId: string, gateType: string, maxRetries: int, maxWaitSeconds: int)

  function WaitAt(d: Desk, gate: nat, start: int, maxWait: int, polls: seq<Poll>): (Desk, Answer)
    requires gate < |d.gates|
    decreases |polls|
  {
    if polls == [] then (d, GateCancelled) else
      var p := polls[0];
      var seen := Elapse(d, p.ticks);
      if seen.now - start > maxWait then (seen, GateTimeout)
      else if p.taskCancelled then (seen, GateCancelled)
      else if !p.readable then WaitAt(seen, gate, start, maxWait, polls[1..])
      else
        match seen.gates[gate].status
        case Approved => (seen, GateApproved)
        case Rejected => (seen, GateRejected)
        case Revised => (seen, GateRevised)
        case Pending => WaitAt(seen, gate, start, maxWait, polls[1..])
  }

  /** The newest gate's approval counts again unless both times are known and it is older than the completion. */
  predicate CountsAgain(g: Gate, stage: Stage) {
    && g.status.Approved?
    && (stage.completedAt.None? || g.reviewedAt.None? || g.reviewedAt.value >= stage.completedAt.value)
  }

  function Open(d: Desk, cfg: Setting, stage: Stage, retry: nat): Desk {
    d.(gates := d.gates + [Gate(cfg.taskId, cfg.gateType, Some(stage.name), Pending, d.now, None, retry)])
  }

  /** `_handle_gate`: join a pending gate, count an approval again, or open a new gate; then wait. */
  function AtGate(d: Desk, cfg: Setting, stage: Stage, retry: nat, polls: seq<Poll>): (Desk, Answer) {
    var pending := FirstPending(d.gates, cfg.taskId, cfg.gateType, stage.name, 0);
    if pending.Some? then WaitAt(d, pending.value, d.now, cfg.maxWaitSeconds, polls)
    else
      var newest := Newest(d.gates, cfg.taskId, cfg.gateType, stage.name, |d.gates|);
      if newest.Some? && CountsAgain(d.gates[newest.value], stage) then (d, GateApproved)
      else WaitAt(Open(d, cfg, stage, retry), |d.gates|, d.now, cfg.maxWaitSeconds, polls)
  }

  // ---------------------------------------------------------------- retrying with feedback

  /** A re-execution: it fails, or it yields an output; its completion time is taken between `before` and `after`. */
  datatype StageRun = RunFails(ticks: seq<Tick>) | RunYields(output: string, before: seq<Tick>, after: seq<Tick>)

  datatype Attempt = Attempt(polls: seq<Poll>, run: StageRun)

  datatype Progress = Progress(desk: Desk, stage: Stage, output: string, rejections: nat, revisions: nat) {
    function Retry(): nat {
      rejections + revisions
    }
  }

  datatype Reason = RunFailed | RejectedForGood | TimedOut | WasCancelled

  /** InProgress: the script of what happens ends before the call does. */
  datatype Ending = Passed(p: Progress) | Refused(p: Progress, reason: Reason) | InProgress(p: Progress)

  function Rerun(p: Progress, run: StageRun): Progress {
    match run
    case RunFails(ticks) => p.(desk := Elapse(p.desk, ticks))
    case RunYields(output, before, after) =>
      var done := Elapse(p.desk, before);
      p.(desk := Elapse(done, after), stage := p.stage.(completedAt := Some(done.now)), output := output)
  }

  /** `_handle_gate_with_retry` */
  function Handle(p: Progress, cfg: Setting, attempts: seq<Attempt>): Ending
    decreases |attempts|
  {
    if attempts == [] then InProgress(p) else
      var (d, answer) := AtGate(p.desk, cfg, p.stage, p.Retry(), attempts[0].polls);
      var seen := p.(desk := d);
      match answer
      case GateApproved => Passed(seen)
      case GateTimeout => Refused(seen, TimedOut)
      case GateCancelled => Refused(seen, WasCancelled)
      case GateRevised => Again(seen.(revisions := p.revisions + 1), cfg, attempts)
      case GateRejected =>
        if p.Retry() < cfg.maxRetries then Again(seen.(rejections := p.rejections + 1), cfg, attempts)
        else Refused(seen, RejectedForGood)
  }

  function Again(p: Progress, cfg: Setting, attempts: seq<Attempt>): Ending
    requires attempts != []
    decreases |attempts|, 0
  {
    var q := Rerun(p, attempts[0].run);
    if attempts[0].run.RunFails? then Refused(q, RunFailed) else Handle(q, cfg, attempts[1..])
  }

  // ---------------------------------------------------------------- the gate table and its users

  class GateDesk {
    var gates: seq<Gate>
    var now: int

    constructor (gates: seq<Gate>, now: int)
      ensures State() == Desk(gates, now)
    {
      this.gates, this.now := gates, now;
    }

    function State(): Desk
      reads this
    {
      Desk(gates, now)
    }

    /** GateService.approve, reject and revise: unknown ids change nothing, resolved gates may be reviewed again. */
    method ReviewGate(gate: nat, verdict: Verdict) returns (found: bool)
      modifies this
      ensures State() == Happen(old(State()), Review(gate, verdict))
      ensures found <==> gate < |old(gates)|
    {
      if gate >= |gates| {
        return false;
      }
      var g := gates[gate];
      match verdict {
        case Approve => g := g.(status := Approved);
        case Reject => g := g.(status := Rejected);
        case Revise => g := g.(status := Revised);
      }
      g := g.(reviewedAt := Some(now));
      gates := gates[gate := g];
      return true;
    }

    method LetPass(ticks: seq<Tick>)
      modifies this
      ensures State() == Elapse(old(State()), ticks)
    {
      var i := 0;
      while i < |ticks|
        invariant 0 <= i <= |ticks|
        invariant State() == Elapse(old(State()), ticks[..i])
      {
        assert ticks[..i + 1][..i] == ticks[..i];
        match ticks[i] {
          case Wait(seconds) => now := now + seconds;
          case Review(gate, verdict) => var found := ReviewGate(gate, verdict);
        }
        i := i + 1;
      }
      assert ticks[..i] == ticks;
    }

    method AwaitGate(gate: nat, maxWait: int, polls: seq<Poll>) returns (answer: Answer)
      requires gate < |gates|
      modifies this
      ensures (State(), answer) == WaitAt(old(State()), gate, old(now), maxWait, polls)
    {
      var start := now;
      var i := 0;
      while i < |polls|
        invariant 0 <= i <= |polls| && gate < |gates|
        invariant WaitAt(old(State()), gate, start, maxWait, polls) == WaitAt(State(), gate, start, maxWait, polls[i..])
      {
        var p := polls[i];
        assert polls[i..][1..] == polls[i + 1..];
        i := i + 1;
        LetPass(p.ticks);
        if now - start > maxWait {
          return GateTimeout;
        }
        if p.taskCancelled {
          return GateCancelled;
        }
        if !p.readable {
          continue;
        }
        match gates[gate].status {
          case Approved => return GateApproved;
          case Rejected => return GateRejected;
          case Revised => return GateRevised;
          case Pending =>
        }
      }
      return GateCancelled;
    }

    method HandleGate(cfg: Setting, stage: Stage, retry: nat, polls: seq<Poll>) returns (answer: Answer)
      modifies this
      ensures (State(), answer) == AtGate(old(State()), cfg, stage, retry, polls)
    {
      var i := 0;
      while i < |gates|
        invariant 0 <= i <= |gates| && State() == old(State())
        invariant FirstPending(gates, cfg.taskId, cfg.gateType, stage.name, 0)
                  == FirstPending(gates, cfg.taskId, cfg.gateType, stage.name, i)
      {
        if gates[i].status.Pending? && Concerns(gates[i], cfg.taskId, cfg.gateType, stage.name) {
          answer := AwaitGate(i, cfg.maxWaitSeconds, polls);
          return;
        }
        i := i + 1;
      }
      var n := |gates|;
      while n > 0
        invariant 0 <= n <= |gates| && State() == old(State())
        invariant Newest(gates, cfg.taskId, cfg.gateType, stage.name, |gates|)
                  == Newest(gates, cfg.taskId, cfg.gateType, stage.name, n)
      {
        if Concerns(gates[n - 1], cfg.taskId, cfg.gateType, stage.name) {
          if CountsAgain(gates[n - 1], stage) {
            return GateApproved;
          }
          break;
        }
        n := n - 1;
      }
      gates := gates + [Gate(cfg.taskId, cfg.gateType, Some(stage.name), Pending, now, None, retry)];
      answer := AwaitGate(|gates| - 1, cfg.maxWaitSeconds, polls);
    }

    method HandleGateWithRetry(cfg: Setting, stage0: Stage, output0: string, attempts: seq<Attempt>) returns (ending: Ending)
      modifies this
      ensures ending == Handle(Progress(old(State()), stage0, output0, 0, 0), cfg, attempts)
      ensures ending.p.desk == State()
    {
      var stage, output := stage0, output0;
      var currentRetry, rejections := 0, 0;
      var i := 0;
      while i < |attempts|
        invariant 0 <= i <= |attempts| && 0 <= rejections <= currentRetry
        invariant Handle(Progress(old(State()), stage0, output0, 0, 0), cfg, attempts)
                  == Handle(Progress(State(), stage, output, rejections, currentRetry - rejections), cfg, attempts[i..])
      {
        var attempt := attempts[i];
        assert attempts[i..][1..] == attempts[i + 1..];
        i := i + 1;
        var answer := HandleGate(cfg, stage, currentRetry, attempt.polls);
        match answer {
          case GateApproved =>
            return Passed(Progress(State(), stage, output, rejections, currentRetry - rejections));
          case GateTimeout =>
            return Refused(Progress(State(), stage, output, rejections, currentRetry - rejections), TimedOut);
          case GateCancelled =>
            return Refused(Progress(State(), stage, output, rejections, currentRetry - rejections), WasCancelled);
          case GateRejected =>
            if currentRetry >= cfg.maxRetries {
              return Refused(Progress(State(), stage, output, rejections, currentRetry - rejections), RejectedForGood);
            }
            rejections := rejections + 1;
          case GateRevised =>
        }
        currentRetry := currentRetry + 1;
        match attempt.run {
          case RunFails(ticks) =>
            LetPass(ticks);
            return Refused(Progress(State(), stage, output, rejections, currentRetry - rejections), RunFailed);
          case RunYields(newOutput, before, after) =>
            LetPass(before);
            stage := stage.(completedAt := Some(now));
            LetPass(after);
            output := newOutput;
        }
      }
      return InProgress(Progress(State(), stage, output, rejections, currentRetry - rejections));
    }
  }

  // ---------------------------------------------------------------- no output passes without a fresh approval

  /** Every resolved gate carries the time of its review. */
  ghost predicate Stamped(d: Desk) {
    forall i :: 0 <= i < |d.gates| && !d.gates[i].status.Pending? ==> d.gates[i].reviewedAt.Some?
  }

  /** A gate for the stage stands approved, reviewed no earlier than the stage completed. */
  ghost predicate FreshlyApproved(d: Desk, cfg: Setting, stage: Stage) {
    exists i :: 0 <= i < |d.gates|
                && d.gates[i].taskId == cfg.taskId && d.gates[i].gateType == cfg.gateType && d.gates[i].stage == Some(stage.name)
                && d.gates[i].status.Approved? && d.gates[i].reviewedAt.Some? && stage.completedAt.Some?
                && d.gates[i].reviewedAt.value >= stage.completedAt.value
  }

  predicate SameGate(g: Gate, h: Gate) {
    g.taskId == h.taskId && g.gateType == h.gateType && g.stage == h.stage
  }

  /** Seen from `d`, each gate of `e` is unchanged or was reviewed since. */
  ghost predicate Later(d: Desk, e: Desk) {
    && |e.gates| == |d.gates| && e.now >= d.now
    && forall i :: 0 <= i < |d.gates| ==>
         && SameGate(d.gates[i], e.gates[i])
         && e.gates[i].createdAt == d.gates[i].createdAt && e.gates[i].retryCount == d.gates[i].retryCount
         && (e.gates[i] == d.gates[i] ||
             (!e.gates[i].status.Pending? && e.gates[i].reviewedAt.Some? && e.gates[i].reviewedAt.value >= d.now))
  }

  lemma {:induction false} ElapsingIsLater(d: Desk, ticks: seq<Tick>)
    ensures Later(d, Elapse(d, ticks))
  {
    if ticks != [] {
      ElapsingIsLater(d, ticks[..|ticks| - 1]);
    }
  }

  lemma LaterTransitive(a: Desk, b: Desk, c: Desk)
    requires Later(a, b) && Later(b, c)
    ensures Later(a, c)
  {
  }

  lemma {:induction false} WaitingIsLater(d: Desk, gate: nat, start: int, maxWait: int, polls: seq<Poll>)
    requires gate < |d.gates|
    ensures Later(d, WaitAt(d, gate, start, maxWait, polls).0)
    ensures WaitAt(d, gate, start, maxWait, polls).1.GateApproved? ==>
              WaitAt(d, gate, start, maxWait, polls).0.gates[gate].status.Approved?
    decreases |polls|
  {
    if polls != [] {
      var seen := Elapse(d, polls[0].ticks);
      ElapsingIsLater(d, polls[0].ticks);
      WaitingIsLater(seen, gate, start, maxWait, polls[1..]);
      LaterTransitive(d, seen, WaitAt(seen, gate, start, maxWait, polls[1..]).0);
    }
  }

  lemma {:induction false} FirstPendingFound(gates: seq<Gate>, taskId: string, gateType: string, stage: string, i: nat)
    requires i <= |gates|
    ensures var r := FirstPending(gates, taskId, gateType, stage, i);
            && (r.Some? ==> r.value < |gates| && gates[r.value].status.Pending? && Concerns(gates[r.value], taskId, gateType, stage))
            && (r.None? ==> forall j :: i <= j < |gates| && Concerns(gates[j], taskId, gateType, stage) ==> !gates[j].status.Pending?)
    decreases |gates| - i
  {
    if i < |gates| {
      FirstPendingFound(gates, taskId, gateType, stage, i + 1);
    }
  }

  lemma {:induction false} NewestFound(gates: seq<Gate>, taskId: string, gateType: string, stage: string, n: nat)
    requires n <= |gates|
    ensures var r := Newest(gates, taskId, gateType, stage, n);
            && (r.Some? ==> r.value < n && Concerns(gates[r.value], taskId, gateType, stage)
                            && forall j :: r.value < j < n ==> !Concerns(gates[j], taskId, gateType, stage))
            && (r.None? ==> forall j :: 0 <= j < n ==> !Concerns(gates[j], taskId, gateType, stage))
  {
    if n > 0 {
      NewestFound(gates, taskId, gateType, stage, n - 1);
    }
  }

  /** Rows were created in clock order, none in the future. */
  ghost predicate Dated(d: Desk) {
    && (forall i :: 0 <= i < |d.gates| ==> d.gates[i].createdAt <= d.now)
    && (forall i, j :: 0 <= i < j < |d.gates| ==> d.gates[i].createdAt <= d.gates[j].createdAt)
  }

  lemma LaterKeepsDated(d: Desk, e: Desk)
    requires Dated(d) && Later(d, e)
    ensures Dated(e)
  {
  }

  /** The newest gate by position is a newest one by creation time. */
  lemma NewestIsLatest(d: Desk, taskId: string, gateType: string, stage: string)
    requires Dated(d)
    ensures var r := Newest(d.gates, taskId, gateType, stage, |d.gates|);
            && (r.None? <==> forall j :: 0 <= j < |d.gates| ==> !Concerns(d.gates[j], taskId, gateType, stage))
            && (r.Some? ==>
                  && Concerns(d.gates[r.value], taskId, gateType, stage)
                  && forall j :: 0 <= j < |d.gates| && Concerns(d.gates[j], taskId, gateType, stage) ==>
                       d.gates[j].createdAt <= d.gates[r.value].createdAt)
  {
    NewestFound(d.gates, taskId, gateType, stage, |d.gates|);
  }

  /** Approval at one gate is fresh when the completion time is known and past. */
  lemma ApprovalIsFresh(d: Desk, cfg: Setting, stage: Stage, retry: nat, polls: seq<Poll>)
    requires Stamped(d) && stage.completedAt.Some? && stage.completedAt.value <= d.now
    requires AtGate(d, cfg, stage, retry, polls).1.GateApproved?
    ensures FreshlyApproved(AtGate(d, cfg, stage, retry, polls).0, cfg, stage)
  {
    FirstPendingFound(d.gates, cfg.taskId, cfg.gateType, stage.name, 0);
    NewestFound(d.gates, cfg.taskId, cfg.gateType, stage.name, |d.gates|);
    var pending := FirstPending(d.gates, cfg.taskId, cfg.gateType, stage.name, 0);
    var newest := Newest(d.gates, cfg.taskId, cfg.gateType, stage.name, |d.gates|);
    if pending.Some? {
      WaitingIsLater(d, pending.value, d.now, cfg.maxWaitSeconds, polls);
      assert SameGate(d.gates[pending.value], WaitAt(d, pending.value, d.now, cfg.maxWaitSeconds, polls).0.gates[pending.value]);
    } else if newest.Some? && CountsAgain(d.gates[newest.value], stage) {
      assert d.gates[newest.value].reviewedAt.Some?;
    } else {
      var withGate := Open(d, cfg, stage, retry);
      WaitingIsLater(withGate, |d.gates|, d.now, cfg.maxWaitSeconds, polls);
      assert SameGate(withGate.gates[|d.gates|], WaitAt(withGate, |d.gates|, d.now, cfg.maxWaitSeconds, polls).0.gates[|d.gates|]);
    }
  }

  /** What a visit to a gate keeps: stamps, and a clock that does not run back. */
  lemma AtGateKeepsStamps(d: Desk, cfg: Setting, stage: Stage, retry: nat, polls: seq<Poll>)
    requires Stamped(d)
    ensures Stamped(AtGate(d, cfg, stage, retry, polls).0) && AtGate(d, cfg, stage, retry, polls).0.now >= d.now
    ensures Dated(d) ==> Dated(AtGate(d, cfg, stage, retry, polls).0)
  {
    FirstPendingFound(d.gates, cfg.taskId, cfg.gateType, stage.name, 0);
    var pending := FirstPending(d.gates, cfg.taskId, cfg.gateType, stage.name, 0);
    if pending.Some? {
      WaitingIsLater(d, pending.value, d.now, cfg.maxWaitSeconds, polls);
    } else {
      WaitingIsLater(Open(d, cfg, stage, retry), |d.gates|, d.now, cfg.maxWaitSeconds, polls);
    }
  }

  lemma RerunKeepsStamps(p: Progress, run: StageRun)
    requires Stamped(p.desk)
    ensures Stamped(Rerun(p, run).desk) && Rerun(p, run).desk.now >= p.desk.now
    ensures Dated(p.desk) ==> Dated(Rerun(p, run).desk)
    ensures run.RunYields? ==> Rerun(p, run).stage.completedAt.Some? && Rerun(p, run).stage.completedAt.value <= Rerun(p, run).desk.now
  {
    match run
    case RunFails(ticks) => ElapsingIsLater(p.desk, ticks);
    case RunYields(_, before, after) =>
      ElapsingIsLater(p.desk, before);
      ElapsingIsLater(Elapse(p.desk, before), after);
  }

  /**
   * Across reviews, rejections, revisions, timeouts and re-executions: an output passes only when a gate for its
   * stage stands approved, reviewed no earlier than the completion of the execution that produced the output.
   */
  lemma {:induction false} OutputNeedsFreshApproval(p: Progress, cfg: Setting, attempts: seq<Attempt>)
    requires Stamped(p.desk) && p.stage.completedAt.Some? && p.stage.completedAt.value <= p.desk.now
    requires Handle(p, cfg, attempts).Passed?
    ensures FreshlyApproved(Handle(p, cfg, attempts).p.desk, cfg, Handle(p, cfg, attempts).p.stage)
    decreases |attempts|
  {
    var (d, answer) := AtGate(p.desk, cfg, p.stage, p.Retry(), attempts[0].polls);
    if answer.GateApproved? {
      ApprovalIsFresh(p.desk, cfg, p.stage, p.Retry(), attempts[0].polls);
    } else {
      AtGateKeepsStamps(p.desk, cfg, p.stage, p.Retry(), attempts[0].polls);
      var q := if answer.GateRevised? then p.(desk := d, revisions := p.revisions + 1) else p.(desk := d, rejections := p.rejections + 1);
      RerunKeepsStamps(q, attempts[0].run);
      OutputNeedsFreshApproval(Rerun(q, attempts[0].run), cfg, attempts[1..]);
    }
  }

  /**
   * Without a recorded completion time a visit may pass on an approval older than the completion (at `finished`):
   * exactly when no gate of the stage is pending and the newest one is approved, while none was approved since.
   */
  lemma UnknownCompletionPassesStaleApproval(d: Desk, cfg: Setting, name: string, finished: int, retry: nat, polls: seq<Poll>)
    requires Stamped(d) && finished <= d.now
    ensures var (e, answer) := AtGate(d, cfg, Stage(name, None), retry, polls);
            var newest := Newest(d.gates, cfg.taskId, cfg.gateType, name, |d.gates|);
            answer.GateApproved? && !FreshlyApproved(e, cfg, Stage(name, Some(finished))) <==>
              && FirstPending(d.gates, cfg.taskId, cfg.gateType, name, 0).None?
              && newest.Some? && d.gates[newest.value].status.Approved?
              && !FreshlyApproved(d, cfg, Stage(name, Some(finished)))
  {
    var newest := Newest(d.gates, cfg.taskId, cfg.gateType, name, |d.gates|);
    if FirstPending(d.gates, cfg.taskId, cfg.gateType, name, 0).None? && newest.Some? && d.gates[newest.value].status.Approved? {
      assert AtGate(d, cfg, Stage(name, None), retry, polls) == (d, GateApproved);
    } else {
      assert AtGate(d, cfg, Stage(name, None), retry, polls) == AtGate(d, cfg, Stage(name, Some(finished)), retry, polls) by {
        hide WaitAt;
      }
      hide AtGate;
      if AtGate(d, cfg, Stage(name, Some(finished)), retry, polls).1.GateApproved? {
        ApprovalIsFresh(d, cfg, Stage(name, Some(finished)), retry, polls);
      }
    }
  }

  // ---------------------------------------------------------------- one pending gate, bounded rejections

  /** No two pending gates share task, type and stage. */
  ghost predicate OnePending(gates: seq<Gate>) {
    forall i, j :: 0 <= i < j < |gates| && gates[i].status.Pending? && gates[j].status.Pending? && gates[i].stage.Some? ==>
      !SameGate(gates[i], gates[j])
  }

  lemma LaterKeepsOnePending(d: Desk, e: Desk)
    requires OnePending(d.gates) && Later(d, e)
    ensures OnePending(e.gates)
  {
  }

  lemma AtGateKeepsOnePending(d: Desk, cfg: Setting, stage: Stage, retry: nat, polls: seq<Poll>)
    requires OnePending(d.gates)
    ensures OnePending(AtGate(d, cfg, stage, retry, polls).0.gates)
  {
    FirstPendingFound(d.gates, cfg.taskId, cfg.gateType, stage.name, 0);
    var pending := FirstPending(d.gates, cfg.taskId, cfg.gateType, stage.name, 0);
    if pending.Some? {
      WaitingIsLater(d, pending.value, d.now, cfg.maxWaitSeconds, polls);
      LaterKeepsOnePending(d, WaitAt(d, pending.value, d.now, cfg.maxWaitSeconds, polls).0);
    } else {
      var withGate := Open(d, cfg, stage, retry);
      WaitingIsLater(withGate, |d.gates|, d.now, cfg.maxWaitSeconds, polls);
      LaterKeepsOnePending(withGate, WaitAt(withGate, |d.gates|, d.now, cfg.maxWaitSeconds, polls).0);
    }
  }

  lemma RerunKeepsOnePending(p: Progress, run: StageRun)
    requires OnePending(p.desk.gates)
    ensures OnePending(Rerun(p, run).desk.gates)
  {
    match run
    case RunFails(ticks) =>
      ElapsingIsLater(p.desk, ticks);
      LaterKeepsOnePending(p.desk, Elapse(p.desk, ticks));
    case RunYields(_, before, after) =>
      var done := Elapse(p.desk, before);
      ElapsingIsLater(p.desk, before);
      LaterKeepsOnePending(p.desk, done);
      ElapsingIsLater(done, after);
      LaterKeepsOnePending(done, Elapse(done, after));
  }

  /** A call re-executes for rejections at most maxRetries times, and gives up exactly when its budget is used up. */
  lemma {:induction false} HandleKeepsAccount(p: Progress, cfg: Setting, attempts: seq<Attempt>)
    requires OnePending(p.desk.gates)
    requires p.rejections == 0 || p.rejections <= cfg.maxRetries
    ensures var e := Handle(p, cfg, attempts);
            && OnePending(e.p.desk.gates)
            && (e.p.rejections == 0 || e.p.rejections <= cfg.maxRetries)
            && (e.Refused? && e.reason.RejectedForGood? ==> e.p.Retry() >= cfg.maxRetries)
    decreases |attempts|
  {
    if attempts != [] {
      var (d, answer) := AtGate(p.desk, cfg, p.stage, p.Retry(), attempts[0].polls);
      AtGateKeepsOnePending(p.desk, cfg, p.stage, p.Retry(), attempts[0].polls);
      if answer.GateRevised? || (answer.GateRejected? && p.Retry() < cfg.maxRetries) {
        var q := if answer.GateRevised? then p.(desk := d, revisions := p.revisions + 1) else p.(desk := d, rejections := p.rejections + 1);
        RerunKeepsOnePending(q, attempts[0].run);
        if attempts[0].run.RunYields? {
          HandleKeepsAccount(Rerun(q, attempts[0].run), cfg, attempts[1..]);
        }
      }
    }
  }

  // ---------------------------------------------------------------- any sequence of calls

  /** The gate table and the recorded completion times of the stages, by task and name. */
  datatype Office = Office(desk: Desk, completions: map<(string, string), int>)

  function StageOf(o: Office, taskId: string, name: string): Stage {
    Stage(name, if (taskId, name) in o.completions then Some(o.completions[(taskId, name)]) else None)
  }

  /** One worker's executions and gate calls, repeated after resumes, with anything happening in between. */
  datatype Activity =
    | Outside(ticks: seq<Tick>)
    | Execution(taskId: string, name: string, before: seq<Tick>, after: seq<Tick>)
    | GateCall(cfg: Setting, name: string, output: string, attempts: seq<Attempt>)

  function Call(o: Office, cfg: Setting, name: string, output: string, attempts: seq<Attempt>): Ending {
    Handle(Progress(o.desk, StageOf(o, cfg.taskId, name), output, 0, 0), cfg, attempts)
  }

  function Act(o: Office, a: Activity): Office {
    match a
    case Outside(ticks) => o.(desk := Elapse(o.desk, ticks))
    case Execution(taskId, name, before, after) =>
      var done := Elapse(o.desk, before);
      Office(Elapse(done, after), o.completions[(taskId, name) := done.now])
    case GateCall(cfg, name, output, attempts) =>
      var p := Call(o, cfg, name, output, attempts).p;
      Office(p.desk, if p.stage.completedAt.Some? then o.completions[(cfg.taskId, name) := p.stage.completedAt.value] else o.completions)
  }

  function After(o: Office, activities: seq<Activity>): Office {
    if activities == [] then o else Act(After(o, activities[..|activities| - 1]), Last(activities))
  }

  /** Resolved gates are stamped, rows are dated in clock order, and recorded completions are past. */
  ghost predicate Healthy(o: Office) {
    && Stamped(o.desk) && Dated(o.desk)
    && forall k :: k in o.completions ==> o.completions[k] <= o.desk.now
  }

  ghost predicate CompletedBefore(p: Progress) {
    p.stage.completedAt.Some? ==> p.stage.completedAt.value <= p.desk.now
  }

  /** What a whole call keeps, however it ends. */
  lemma {:induction false} HandleKeepsStamps(p: Progress, cfg: Setting, attempts: seq<Attempt>)
    requires Stamped(p.desk) && Dated(p.desk) && CompletedBefore(p)
    ensures var q := Handle(p, cfg, attempts).p;
            && Stamped(q.desk) && Dated(q.desk) && CompletedBefore(q) && q.desk.now >= p.desk.now
            && q.stage.name == p.stage.name && (p.stage.completedAt.Some? ==> q.stage.completedAt.Some?)
    decreases |attempts|
  {
    hide Stamped, Dated, AtGate;
    if attempts != [] {
      var (d, answer) := AtGate(p.desk, cfg, p.stage, p.Retry(), attempts[0].polls);
      AtGateKeepsStamps(p.desk, cfg, p.stage, p.Retry(), attempts[0].polls);
      if answer.GateRevised? || (answer.GateRejected? && p.Retry() < cfg.maxRetries) {
        var q := if answer.GateRevised? then p.(desk := d, revisions := p.revisions + 1) else p.(desk := d, rejections := p.rejections + 1);
        RerunKeepsStamps(q, attempts[0].run);
        if attempts[0].run.RunYields? {
          HandleKeepsStamps(Rerun(q, attempts[0].run), cfg, attempts[1..]);
        }
      }
    }
  }

  lemma ActKeepsHealthy(o: Office, a: Activity)
    requires Healthy(o)
    ensures Healthy(Act(o, a))
  {
    match a
    case Outside(ticks) =>
      ElapsingIsLater(o.desk, ticks);
      LaterKeepsDated(o.desk, Elapse(o.desk, ticks));
    case Execution(taskId, name, before, after) =>
      var done := Elapse(o.desk, before);
      ElapsingIsLater(o.desk, before);
      LaterKeepsDated(o.desk, done);
      ElapsingIsLater(done, after);
      LaterKeepsDated(done, Elapse(done, after));
    case GateCall(cfg, name, output, attempts) =>
      hide Handle, Stamped, Dated;
      HandleKeepsStamps(Progress(o.desk, StageOf(o, cfg.taskId, name), output, 0, 0), cfg, attempts);
  }

  lemma {:induction false} AfterKeepsHealthy(o: Office, activities: seq<Activity>)
    requires Healthy(o)
    ensures Healthy(After(o, activities))
  {
    hide Healthy, Act;
    if activities != [] {
      AfterKeepsHealthy(o, activities[..|activities| - 1]);
      ActKeepsHealthy(After(o, activities[..|activities| - 1]), Last(activities));
    }
  }

  /**
   * Over any sequence of executions, calls, reviews, timeouts and resumes: whenever a call for a stage whose
   * completion is recorded passes an output, a gate of the stage stands approved, reviewed no earlier than the
   * completion of the execution that produced the output.
   */
  lemma OutputsNeedFreshApproval(o: Office, activities: seq<Activity>, cfg: Setting, name: string, output: string,
                                 attempts: seq<Attempt>)
    requires Healthy(o) && (cfg.taskId, name) in After(o, activities).completions
    ensures var e := Call(After(o, activities), cfg, name, output, attempts);
            e.Passed? ==> FreshlyApproved(e.p.desk, cfg, e.p.stage) && e.p.stage.name == name
  {
    AfterKeepsHealthy(o, activities);
    var now := After(o, activities);
    var p := Progress(now.desk, StageOf(now, cfg.taskId, name), output, 0, 0);
    hide After, Handle, FreshlyApproved, Stamped, Dated;
    HandleKeepsStamps(p, cfg, attempts);
    if Handle(p, cfg, attempts).Passed? {
      OutputNeedsFreshApproval(p, cfg, attempts);
    }
  }

  /** Over any such sequence at most one gate per task, type and stage is pending. */
  lemma {:induction false} AtMostOnePendingGate(o: Office, activities: seq<Activity>)
    requires OnePending(o.desk.gates)
    ensures OnePending(After(o, activities).desk.gates)
  {
    hide OnePending, Handle;
    if activities != [] {
      AtMostOnePendingGate(o, activities[..|activities| - 1]);
      var before := After(o, activities[..|activities| - 1]);
      match Last(activities)
      case Outside(ticks) =>
        ElapsingIsLater(before.desk, ticks);
        LaterKeepsOnePending(before.desk, Elapse(before.desk, ticks));
      case Execution(_, _, early, late) =>
        var done := Elapse(before.desk, early);
        ElapsingIsLater(before.desk, early);
        LaterKeepsOnePending(before.desk, done);
        ElapsingIsLater(done, late);
        LaterKeepsOnePending(done, Elapse(done, late));
      case GateCall(cfg, name, output, attempts) =>
        HandleKeepsAccount(Progress(before.desk, StageOf(before, cfg.taskId, name), output, 0, 0), cfg, attempts);
    }
  }
}
