/**
 * The contract document forbids a succeeded or failed job to become running before it is queued again. The worker
 * does not look at those statuses, so a left-over token reruns the job. This module says exactly when a run can do
 * that, when it can leave the two statuses at all, and when an expired job can.
 */
module JobReopen {
  import opened Text
  import opened Jobs
  import opened JobMachine
  import opened JobInvariants
  import opened JobTheorems

  /** A run from here without a replay of the job. */
  ghost predicate RunWithout(states: seq<System>, steps: seq<Step>, s: System, id: string) {
    IsRun(states, steps) && NoReplayOf(steps, id) && states[0] == s
  }

  /** At the end of the run the job has another status. */
  ghost predicate Leaves(states: seq<System>, steps: seq<Step>, s: System, id: string)
    requires id in s.mem.jobs
  {
    && RunWithout(states, steps, s, id)
    && id in states[|steps|].mem.jobs
    && states[|steps|].mem.jobs[id].status != s.mem.jobs[id].status
  }

  /** The last step of the run takes the job from its status straight to running. */
  ghost predicate RerunsIn(states: seq<System>, steps: seq<Step>, s: System, id: string)
    requires id in s.mem.jobs
  {
    && RunWithout(states, steps, s, id)
    && steps != []
    && id in states[|steps| - 1].mem.jobs && states[|steps| - 1].mem.jobs[id].status == s.mem.jobs[id].status
    && id in states[|steps|].mem.jobs && states[|steps|].mem.jobs[id].status == Running
  }

  /** Some run from here, with a clock that never goes back and no replay of the job, gives it another status. */
  ghost predicate Reopenable(s: System, id: string)
    requires id in s.mem.jobs
  {
    exists states, steps :: Leaves(states, steps, s, id) && TimelyRun(states, steps)
  }

  /** The forbidden transition: some such run takes the job straight to running. */
  ghost predicate Reruns(s: System, id: string)
    requires id in s.mem.jobs
  {
    exists states, steps :: RerunsIn(states, steps, s, id) && TimelyRun(states, steps)
  }

  /** The same two with a clock that reads anything. */
  ghost predicate ReopenableUntimely(s: System, id: string)
    requires id in s.mem.jobs
  {
    exists states, steps :: Leaves(states, steps, s, id)
  }

  ghost predicate RerunsUntimely(s: System, id: string)
    requires id in s.mem.jobs
  {
    exists states, steps :: RerunsIn(states, steps, s, id)
  }

  /** The worker is stuck enqueuing the last token of the job into a full channel: it can only time out. */
  predicate Stuck(s: System, id: string) {
    s.worker == Retrying(id) && |s.queue| >= s.cfg.queueSize && id !in s.queue && id !in s.pending
  }

  // ---- nothing to reopen it -------------------------------------------------------------

  predicate Settled(s: System, id: string) {
    id in s.mem.jobs && Terminal(s.mem.jobs[id].status) && (!InFlight(s, id) || Stuck(s, id))
  }

  /** Before the timeout nothing reaches the full channel, and nobody makes a token of the job. */
  lemma StuckFrame(s: System, step: Step, id: string)
    requires Enabled(s, step) && Stuck(s, id) && !step.Restart? && !step.WorkerTimeout?
    requires id != JobId(s.mem.nextID + 1) && (step.ReplayJob? ==> step.id != id)
    ensures Stuck(Apply(s, step), id)
  {
    hide KnownKey, ReplayAnswer, BeginExecutes, FinishRetries, JobId;
    hide SubmitState, ExpireState, CancelState, ReplayState, EventState, BeginState, FinishState;
  }

  lemma StuckTimeout(s: System, id: string)
    requires Enabled(s, WorkerTimeout) && Stuck(s, id)
    ensures !InFlight(Apply(s, WorkerTimeout), id)
  {
    TokenFlow(s, WorkerTimeout, id);
    ExecutingFlow(s, WorkerTimeout, id);
    assert Waiting(s, id) == 1;
    hide Apply, Enabled, Waiting;
  }

  lemma StuckStep(s: System, step: Step, id: string)
    requires SystemOk(s) && Enabled(s, step) && Stuck(s, id) && id in s.mem.jobs && Terminal(s.mem.jobs[id].status)
    requires step.ReplayJob? ==> step.id != id
    ensures Stuck(Apply(s, step), id) || !InFlight(Apply(s, step), id)
  {
    hide Apply, Enabled, SystemOk, Waiting, Stuck;
    if step.Restart? {
      RestartQueues(s, step, id);
      ExecutingFlow(s, step, id);
    } else if step.WorkerTimeout? {
      StuckTimeout(s, id);
    } else {
      AttemptsOk(s, id);
      StuckFrame(s, step, id);
    }
  }

  lemma SettledStep(s: System, step: Step, id: string)
    requires SystemOk(s) && Enabled(s, step) && Settled(s, id)
    requires step.ReplayJob? ==> step.id != id
    ensures Settled(Apply(s, step), id) && Apply(s, step).mem.jobs[id].status == s.mem.jobs[id].status
  {
    hide Apply, Enabled, SystemOk, EventStatus, InFlight;
    if InFlight(s, id) {
      StuckStep(s, step, id);
      JobAfter(s, step, id);
    } else {
      QuietStep(s, step, id);
    }
  }

  lemma {:induction false} SettledStays(states: seq<System>, steps: seq<Step>, k: nat, id: string)
    requires IsRun(states, steps) && SystemOk(states[0]) && NoReplayOf(steps, id) && k <= |steps|
    requires Settled(states[0], id)
    ensures Settled(states[k], id) && states[k].mem.jobs[id].status == states[0].mem.jobs[id].status
  {
    hide Apply, Enabled, SystemOk, Settled;
    if k > 0 {
      SettledStays(states, steps, k - 1, id);
      RunKeepsOk(states, steps, k - 1);
      RunStep(states, steps, k - 1);
      SettledStep(states[k - 1], steps[k - 1], id);
    }
  }

  /** Past its deadline a terminal job stays terminal, under a clock that never goes back. */
  predicate Overdue(s: System, id: string) {
    id in s.mem.jobs && Terminal(s.mem.jobs[id].status) && IsExpired(s.mem.jobs[id], s.clock)
  }

  lemma OverdueStep(s: System, step: Step, id: string)
    requires SystemOk(s) && Enabled(s, step) && Timely(s, step) && Overdue(s, id)
    requires step.ReplayJob? ==> step.id != id
    ensures Overdue(Apply(s, step), id)
  {
    hide Apply, Enabled, SystemOk, EventStatus;
    JobAfter(s, step, id);
    ClockFlow(s, step);
  }

  lemma {:induction false} OverdueNeverRuns(states: seq<System>, steps: seq<Step>, k: nat, id: string)
    requires IsRun(states, steps) && TimelyRun(states, steps) && SystemOk(states[0]) && NoReplayOf(steps, id)
    requires Overdue(states[0], id) && k <= |steps|
    ensures Overdue(states[k], id)
  {
    hide Apply, Enabled, SystemOk, Overdue, Timely;
    if k > 0 {
      OverdueNeverRuns(states, steps, k - 1, id);
      RunKeepsOk(states, steps, k - 1);
      RunStep(states, steps, k - 1);
      OverdueStep(states[k - 1], steps[k - 1], id);
    }
  }

  // ---- bringing the job into the worker's hands -----------------------------------------

  /** Towards letting the worker take a token of `id`. */
  function Move(s: System, id: string): Step {
    match s.worker
    case Booting(_) => WorkerTimeout
    case Idle => if s.queue != [] then WorkerDequeue else ApiEnqueue(id)
    case Holding(_) => WorkerBegin(s.clock, s.clock)
    case Executing(_) => WorkerFinish(Success(ExpertResult("", "")), s.clock, s.clock)
    case Retrying(_) => if s.worker.id == id && |s.queue| < s.cfg.queueSize then WorkerEnqueue else WorkerTimeout
  }

  function Distance(s: System, id: string): nat {
    6 * s.pending[id] + 4 * |s.queue| +
    match s.worker
    case Booting(rest) => 1 + |rest|
    case Idle => 0
    case Holding(_) => 2
    case Executing(_) => 1
    case Retrying(_) => 6
  }

  predicate Open(s: System, id: string) {
    id in s.mem.jobs && Terminal(s.mem.jobs[id].status) && InFlight(s, id) && !Stuck(s, id)
  }

  predicate AtHand(s: System, id: string) {
    s.worker == Holding(id) || s.worker == Executing(id)
  }

  lemma MoveEnabled(s: System, id: string)
    requires SystemOk(s) && Open(s, id)
    ensures Enabled(s, Move(s, id)) && Timely(s, Move(s, id)) && !Move(s, id).ReplayJob?
  {}

  lemma IdleMoveDistance(s: System, id: string)
    requires SystemOk(s) && Open(s, id) && s.worker.Idle?
    ensures Distance(Apply(s, Move(s, id)), id) < Distance(s, id)
  {
    assert s.queue == [] ==> s.pending[id] > 0;
    hide SystemOk, InFlight, Stuck;
  }

  lemma BusyMoveDistance(s: System, id: string)
    requires s.worker.Holding? || s.worker.Executing?
    requires id in s.mem.jobs && s.worker != Executing(id)
    ensures Distance(Apply(s, Move(s, id)), id) < Distance(s, id)
  {
    hide BeginState, FinishState;
  }

  lemma EnqueueMoveDistance(s: System, id: string)
    requires Enqueuing(s.worker) && id in s.mem.jobs
    ensures Distance(Apply(s, Move(s, id)), id) < Distance(s, id)
  {}

  lemma OtherMoveDistance(s: System, id: string)
    requires SystemOk(s) && Open(s, id) && !AtHand(s, id)
    ensures Distance(Apply(s, Move(s, id)), id) < Distance(s, id)
  {
    hide Apply, Enabled, Distance, Move, InFlight, Stuck, StateOk;
    if s.worker.Idle? { IdleMoveDistance(s, id); }
    else if Enqueuing(s.worker) { EnqueueMoveDistance(s, id); }
    else { BusyMoveDistance(s, id); }
  }

  lemma OtherMoveFlight(s: System, id: string)
    requires SystemOk(s) && Open(s, id) && !AtHand(s, id)
    ensures var s' := Apply(s, Move(s, id)); InFlight(s', id) && !Stuck(s', id)
  {
    MoveEnabled(s, id);
    TokenFlow(s, Move(s, id), id);
    hide SubmitState, ExpireState, CancelState, ReplayState, EventState, BeginState, FinishState, LoadState;
    hide StateOk, NoneLost, TokensKnown;
  }

  lemma MoveClock(s: System, id: string)
    ensures Apply(s, Move(s, id)).clock == s.clock
  {
    hide BeginState, FinishState;
  }

  lemma OtherMove(s: System, id: string)
    requires SystemOk(s) && Open(s, id) && !AtHand(s, id)
    ensures var s' := Apply(s, Move(s, id));
            SystemOk(s') && Open(s', id) && s'.mem.jobs[id] == s.mem.jobs[id] && s'.clock == s.clock
            && Distance(s', id) < Distance(s, id)
  {
    hide Apply, Enabled, SystemOk, EventStatus, InFlight, Stuck, Distance, Waiting;
    MoveEnabled(s, id);
    StepKeepsOk(s, Move(s, id));
    JobAfter(s, Move(s, id), id);
    MoveClock(s, id);
    OtherMoveFlight(s, id);
    OtherMoveDistance(s, id);
  }

  lemma Prepend(s: System, step: Step, states: seq<System>, steps: seq<Step>, id: string)
    requires Enabled(s, step) && Timely(s, step) && (step.ReplayJob? ==> step.id != id)
    requires IsRun(states, steps) && TimelyRun(states, steps) && NoReplayOf(steps, id) && states[0] == Apply(s, step)
    ensures IsRun([s] + states, [step] + steps) && TimelyRun([s] + states, [step] + steps) && NoReplayOf([step] + steps, id)
    ensures ([s] + states)[|[step] + steps|] == states[|steps|]
  {
    hide Apply, Enabled, Timely, NoReplayOf;
    PrependRun(s, step, states, steps);
    PrependTimely(s, step, states, steps);
    PrependKeeps(step, steps, id);
    hide IsRun, TimelyRun;
  }

  lemma PrependRun(s: System, step: Step, states: seq<System>, steps: seq<Step>)
    requires Enabled(s, step) && IsRun(states, steps) && states[0] == Apply(s, step)
    ensures IsRun([s] + states, [step] + steps)
  {
    hide Apply, Enabled;
    assert Next(s, step, states[0]);
    hide Next;
    var ss, ts := [s] + states, [step] + steps;
    forall i | 0 <= i < |ts| ensures Next(ss[i], ts[i], ss[i + 1]) {
      if i > 0 { assert ts[i] == steps[i - 1]; }
    }
  }

  lemma PrependTimely(s: System, step: Step, states: seq<System>, steps: seq<Step>)
    requires Timely(s, step) && IsRun(states, steps) && TimelyRun(states, steps) && IsRun([s] + states, [step] + steps)
    ensures TimelyRun([s] + states, [step] + steps)
  {
    hide Timely, Next;
    var ss, ts := [s] + states, [step] + steps;
    forall i | 0 <= i < |ts| ensures Timely(ss[i], ts[i]) {
      if i > 0 { assert ts[i] == steps[i - 1] && ss[i] == states[i - 1]; }
    }
  }

  lemma PrependKeeps(step: Step, steps: seq<Step>, id: string)
    requires NoReplayOf(steps, id) && (step.ReplayJob? ==> step.id != id)
    ensures NoReplayOf([step] + steps, id)
  {
    var ts := [step] + steps;
    forall i | 0 <= i < |ts| && ts[i].ReplayJob? ensures ts[i].id != id {
      if i > 0 { assert ts[i] == steps[i - 1]; }
    }
  }

  /** A run that leaves the job and the clock alone and ends with the worker at the job. */
  ghost predicate Brings(states: seq<System>, steps: seq<Step>, s: System, id: string)
    requires id in s.mem.jobs
  {
    && RunWithout(states, steps, s, id) && TimelyRun(states, steps)
    && var e := states[|steps|];
       SystemOk(e) && AtHand(e, id) && id in e.mem.jobs && e.mem.jobs[id] == s.mem.jobs[id] && e.clock == s.clock
  }

  lemma {:induction false} Bringing(s: System, id: string) returns (states: seq<System>, steps: seq<Step>)
    requires SystemOk(s) && Open(s, id)
    ensures Brings(states, steps, s, id)
    decreases Distance(s, id)
  {
    hide Apply, Enabled, SystemOk, InFlight, Stuck, Distance, Timely, Move;
    if AtHand(s, id) {
      states, steps := [s], [];
    } else {
      var step := Move(s, id);
      MoveEnabled(s, id);
      OtherMove(s, id);
      states, steps := Bringing(Apply(s, step), id);
      Prepend(s, step, states, steps, id);
      states, steps := [s] + states, [step] + steps;
    }
  }

  lemma Extend(states: seq<System>, steps: seq<Step>, step: Step, id: string)
    requires IsRun(states, steps) && NoReplayOf(steps, id) && Enabled(states[|steps|], step) && !step.ReplayJob?
    ensures var ss, ts := states + [Apply(states[|steps|], step)], steps + [step];
            && IsRun(ss, ts) && NoReplayOf(ts, id)
            && (TimelyRun(states, steps) && Timely(states[|steps|], step) ==> TimelyRun(ss, ts))
            && ss[0] == states[0] && ss[|steps|] == states[|steps|] && ss[|ts|] == Apply(states[|steps|], step)
  {
    hide Apply, Enabled, Timely;
    var ss, ts := states + [Apply(states[|steps|], step)], steps + [step];
    forall i | 0 <= i < |ts| ensures Next(ss[i], ts[i], ss[i + 1]) {
      if i < |steps| { assert Next(states[i], steps[i], states[i + 1]) && ts[i] == steps[i]; }
    }
  }

  // ---- what the worker does with it -----------------------------------------------------

  /** The worker begins the job, or the executor accepts it asynchronously: either way it runs. */
  function RunStepOf(s: System, t: Time): Step {
    if s.worker.Holding? then WorkerBegin(t, t) else WorkerFinish(AsyncAccepted, t, t)
  }

  lemma RunsNow(s: System, id: string, t: Time)
    requires SystemOk(s) && AtHand(s, id) && id in s.mem.jobs
    requires s.mem.jobs[id].status != Canceled && !IsExpired(s.mem.jobs[id], t)
    ensures Enabled(s, RunStepOf(s, t)) && !RunStepOf(s, t).ReplayJob? && (s.clock <= t ==> Timely(s, RunStepOf(s, t)))
    ensures var s' := Apply(s, RunStepOf(s, t)); id in s'.mem.jobs && s'.mem.jobs[id].status == Running
  {
    hide Apply, SystemOk, IsExpired;
    JobAfter(s, RunStepOf(s, t), id);
  }

  /** Past the deadline the worker expires the job. */
  function ExpireStepOf(s: System): Step {
    if s.worker.Holding? then WorkerBegin(s.clock, s.clock) else WorkerFinish(Success(ExpertResult("", "")), s.clock, s.clock)
  }

  lemma ExpiresNow(s: System, id: string)
    requires SystemOk(s) && AtHand(s, id) && id in s.mem.jobs
    requires s.mem.jobs[id].status != Canceled && IsExpired(s.mem.jobs[id], s.clock)
    ensures Enabled(s, ExpireStepOf(s)) && !ExpireStepOf(s).ReplayJob? && Timely(s, ExpireStepOf(s))
    ensures var s' := Apply(s, ExpireStepOf(s)); id in s'.mem.jobs && s'.mem.jobs[id].status == Expired
  {
    hide Apply, SystemOk, IsExpired;
    JobAfter(s, ExpireStepOf(s), id);
  }

  /** A job in flight that is not canceled can be run at any clock reading before its deadline. */
  lemma Rerunning(s: System, id: string, t: Time) returns (states: seq<System>, steps: seq<Step>)
    requires SystemOk(s) && Open(s, id) && s.mem.jobs[id].status != Canceled && !IsExpired(s.mem.jobs[id], t)
    ensures RerunsIn(states, steps, s, id) && (s.clock <= t ==> TimelyRun(states, steps))
  {
    hide Apply, Enabled, SystemOk, InFlight, Stuck, Timely, RunStepOf, IsExpired, TimelyRun;
    states, steps := Bringing(s, id);
    var e := states[|steps|];
    RunsNow(e, id, t);
    Extend(states, steps, RunStepOf(e, t), id);
    states, steps := states + [Apply(e, RunStepOf(e, t))], steps + [RunStepOf(e, t)];
  }

  lemma Expiring(s: System, id: string) returns (states: seq<System>, steps: seq<Step>)
    requires SystemOk(s) && Open(s, id) && s.mem.jobs[id].status != Canceled && IsExpired(s.mem.jobs[id], s.clock)
    ensures RunWithout(states, steps, s, id) && TimelyRun(states, steps)
    ensures id in states[|steps|].mem.jobs && states[|steps|].mem.jobs[id].status == Expired
  {
    hide Apply, Enabled, SystemOk, InFlight, Stuck, Timely, ExpireStepOf, IsExpired, TimelyRun;
    states, steps := Bringing(s, id);
    var e := states[|steps|];
    ExpiresNow(e, id);
    Extend(states, steps, ExpireStepOf(e), id);
    states, steps := states + [Apply(e, ExpireStepOf(e))], steps + [ExpireStepOf(e)];
  }

  /** Nothing gives a terminal job another status unless a token or execution of it can still get through. */
  lemma LeavesOpen(states: seq<System>, steps: seq<Step>, s: System, id: string)
    requires SystemOk(s) && id in s.mem.jobs && Terminal(s.mem.jobs[id].status) && Leaves(states, steps, s, id)
    ensures InFlight(s, id) && !Stuck(s, id)
  {
    hide SystemOk, InFlight, Stuck, IsRun;
    if !InFlight(s, id) || Stuck(s, id) { SettledStays(states, steps, |steps|, id); }
  }

  // ---- the exact conditions -------------------------------------------------------------

  /**
   * A succeeded or failed job can become running without being queued first exactly when a token or an execution of
   * it is still in flight, other than a last token the worker cannot enqueue any more, and its deadline is not past.
   */
  lemma RerunsExactly(s: System, id: string)
    requires Reachable(s) && id in s.mem.jobs
    requires s.mem.jobs[id].status == Succeeded || s.mem.jobs[id].status == Failed
    ensures Reruns(s, id) <==> InFlight(s, id) && !Stuck(s, id) && !IsExpired(s.mem.jobs[id], s.clock)
  {
    hide Reachable, SystemOk, InFlight, Stuck, IsRun, IsExpired, TimelyRun, NoReplayOf;
    ReachableOk(s);
    if InFlight(s, id) && !Stuck(s, id) && !IsExpired(s.mem.jobs[id], s.clock) {
      var states, steps := Rerunning(s, id, s.clock);
    }
    if Reruns(s, id) {
      var states, steps :| RerunsIn(states, steps, s, id) && TimelyRun(states, steps);
      LeavesOpen(states, steps, s, id);
      if IsExpired(s.mem.jobs[id], s.clock) { OverdueNeverRuns(states, steps, |steps|, id); }
    }
  }

  /** It can leave its status at all, to running or to expired, exactly when such a token or execution is in flight. */
  lemma ReopenableExactly(s: System, id: string)
    requires Reachable(s) && id in s.mem.jobs
    requires s.mem.jobs[id].status == Succeeded || s.mem.jobs[id].status == Failed
    ensures Reopenable(s, id) <==> InFlight(s, id) && !Stuck(s, id)
  {
    hide Reachable, SystemOk, InFlight, Stuck, IsRun, IsExpired, TimelyRun, NoReplayOf;
    ReachableOk(s);
    if InFlight(s, id) && !Stuck(s, id) {
      if IsExpired(s.mem.jobs[id], s.clock) {
        var states, steps := Expiring(s, id);
        assert Leaves(states, steps, s, id);
      } else {
        var states, steps := Rerunning(s, id, s.clock);
        assert Leaves(states, steps, s, id);
      }
    }
    if Reopenable(s, id) {
      var states, steps :| Leaves(states, steps, s, id) && TimelyRun(states, steps);
      LeavesOpen(states, steps, s, id);
    }
  }

  /** Under a clock that may go back, every terminal job but a canceled one reruns, or leaves its status, exactly then. */
  lemma UntimelyExactly(s: System, id: string)
    requires Reachable(s) && id in s.mem.jobs
    requires s.mem.jobs[id].status in {Succeeded, Failed, Expired}
    ensures RerunsUntimely(s, id) <==> InFlight(s, id) && !Stuck(s, id)
    ensures ReopenableUntimely(s, id) <==> InFlight(s, id) && !Stuck(s, id)
  {
    hide Reachable, SystemOk, InFlight, Stuck, IsRun, TimelyRun, NoReplayOf;
    ReachableOk(s);
    if InFlight(s, id) && !Stuck(s, id) {
      var j := s.mem.jobs[id];
      var states, steps := Rerunning(s, id, if j.expiresAt.Some? then j.expiresAt.value else s.clock);
      assert Leaves(states, steps, s, id);
    }
    if ReopenableUntimely(s, id) {
      var states, steps :| Leaves(states, steps, s, id);
      LeavesOpen(states, steps, s, id);
    }
    if RerunsUntimely(s, id) {
      var states, steps :| RerunsIn(states, steps, s, id);
      LeavesOpen(states, steps, s, id);
    }
  }

  lemma FirstSubmit(s: System, sub: Submission)
    requires Init(s) && KeyOf(sub) == ""
    ensures var s' := Apply(s, SubmitJob(sub, s.clock)); var id := JobId(1);
            && Next(s, SubmitJob(sub, s.clock), s')
            && s'.worker == Idle && s'.clock == s.clock && s'.cfg == s.cfg && s'.queue == [] && id in s'.pending
            && id in s'.mem.jobs && s'.mem.jobs[id].status == Queued && !IsExpired(s'.mem.jobs[id], s'.clock)
  {
    hide JobId, CloneCallback, KeyOf;
  }

  function Raw(status: Status): string {
    if status == Succeeded then "succeeded" else "failed"
  }

  lemma EventOvertakes(s: System, id: string, status: Status)
    requires s.worker == Idle && id in s.mem.jobs && s.mem.jobs[id].status == Queued && !IsExpired(s.mem.jobs[id], s.clock)
    requires status in {Succeeded, Failed}
    ensures var event := ReceiveEvent(ExpertEvent(id, Raw(status), None, None), s.clock); var s' := Apply(s, event);
            && Next(s, event, s') && s'.pending == s.pending && s'.worker == Idle && id in s'.mem.jobs
            && s'.mem.jobs[id].status == status && !IsExpired(s'.mem.jobs[id], s'.clock)
  {
    TrimOfBare("succeeded", IsSpace);
    TrimOfBare("failed", IsSpace);
  }

  /** The ban does fail, for both statuses: an event that overtakes the queue leaves the token behind. */
  lemma BanFails(s: System, status: Status)
    requires Init(s) && status in {Succeeded, Failed}
    ensures exists s', id :: Reachable(s') && id in s'.mem.jobs && s'.mem.jobs[id].status == status && Reruns(s', id)
  {
    hide Reruns, JobId, Apply, Enabled, Next, Raw, IsExpired;
    var sub := Submission("t", "p", "", "h", "e", "n", "y", "2026-01-01", None);
    var id := JobId(1);
    var submit, event := SubmitJob(sub, s.clock), ReceiveEvent(ExpertEvent(id, Raw(status), None, None), s.clock);
    var s1 := Apply(s, submit);
    var s2 := Apply(s1, event);
    FirstSubmit(s, sub);
    EventOvertakes(s1, id, status);
    var states, steps := [s, s1, s2], [submit, event];
    assert IsRun(states, steps) && Reachable(states[|steps|]);
    RerunsExactly(s2, id);
  }
}
