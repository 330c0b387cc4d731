/** What every interleaved run of the orchestrator guarantees. */
module JobTheorems {
  import opened Text
  import opened Jobs
  import opened JobMachine
  import opened JobInvariants

  // ---- the records of a reachable state -----------------------------------------------

  /** Dead letters agree with jobs, and every job keeps within its attempts. */
  lemma DeadLettersAgree(s: System, id: string)
    requires Reachable(s) && id in s.mem.jobs
    ensures var j := s.mem.jobs[id];
            && 1 <= j.attempt <= j.maxAttempts
            && (j.status == Queued ==> j.progress == 0)
            && (j.status == Succeeded ==> id !in s.mem.deadLetters && j.lastError == None && j.progress == 100)
            && (j.status == Failed ==>
                  && id in s.mem.deadLetters
                  && var d := s.mem.deadLetters[id];
                     && d.jobID == id && d.tenantID == j.tenantID && d.projectID == j.projectID
                     && d.attempts == j.attempt && d.failedAt == j.updatedAt && d.lastError == TextOf(j.lastError))
  {
    ReachableOk(s);
    assert RecordOk(s.mem.jobs[id], LetterOf(s.mem, id));
  }

  /** The jobs are exactly job_1 .. job_nextID. */
  lemma JobIdsExact(s: System, id: string)
    requires Reachable(s)
    ensures id in s.mem.jobs <==> exists n: nat :: 1 <= n <= s.mem.nextID && id == JobId(n)
    ensures id in s.mem.jobs ==> s.mem.jobs[id].id == id
  {
    ReachableOk(s);
  }

  /** A queued job has a token unless an enqueue of it timed out since it was queued. */
  lemma NoLostJob(s: System, id: string)
    requires Reachable(s) && id in s.mem.jobs && s.mem.jobs[id].status == Queued
    ensures id in s.queue || id in s.pending || InHand(s.worker, id) > 0 || id in s.dropped
  {
    ReachableOk(s);
    assert Waiting(s, id) > 0 || id in s.dropped;
  }

  // ---- restart ----------------------------------------------------------------------------

  function Interrupted(j: JobRecord): JobRecord {
    if j.status == Running then j.(status := Queued, progress := 0) else j
  }

  lemma RestartMaps(s: System, order: seq<string>, cfg: Config)
    requires SystemOk(s) && Enabled(s, Restart(order, cfg))
    ensures var s' := Apply(s, Restart(order, cfg));
            && s'.disk == s'.mem && s'.dropped == {} && !s'.worker.Executing?
            && s'.mem.nextID == s.mem.nextID && s'.mem.idempotency == s.mem.idempotency
            && s'.mem.deadLetters == s.mem.deadLetters
            && s'.mem.jobs == (map id | id in s.mem.jobs :: Interrupted(s.mem.jobs[id]))
  {
    hide StateOk, Restore, TokensKnown, NoneLost;
    StepKeepsStateOk(s, Restart(order, cfg));
    LoadExact(s.disk, cfg);
  }

  /** A restart brings back every map from the snapshot, requeueing what was queued or running, each exactly once. */
  lemma RestartRefines(s: System, order: seq<string>, cfg: Config)
    requires Reachable(s) && Enabled(s, Restart(order, cfg))
    ensures var s' := Apply(s, Restart(order, cfg));
            && s'.disk == s'.mem && s'.dropped == {} && !s'.worker.Executing?
            && s'.mem.nextID == s.mem.nextID && s'.mem.idempotency == s.mem.idempotency
            && s'.mem.deadLetters == s.mem.deadLetters
            && s'.mem.jobs == (map id | id in s.mem.jobs :: Interrupted(s.mem.jobs[id]))
            && forall id :: id in s.mem.jobs ==> Waiting(s', id) == if Terminal(s.mem.jobs[id].status) then 0 else 1
  {
    hide Apply, Enabled, SystemOk, Reachable, Waiting;
    ReachableOk(s);
    RestartMaps(s, order, cfg);
    forall id | id in s.mem.jobs
      ensures Waiting(Apply(s, Restart(order, cfg)), id) == if Terminal(s.mem.jobs[id].status) then 0 else 1
    {
      RestartQueues(s, Restart(order, cfg), id);
    }
  }

  /** Restarting again before anything else happens changes neither the maps, the snapshot, nor what is to be enqueued. */
  lemma RestartTwice(s: System, order1: seq<string>, cfg1: Config, order2: seq<string>, cfg2: Config)
    requires Reachable(s) && Enabled(s, Restart(order1, cfg1))
    requires Enabled(Apply(s, Restart(order1, cfg1)), Restart(order2, cfg2))
    ensures var s1 := Apply(s, Restart(order1, cfg1));
            var s2 := Apply(s1, Restart(order2, cfg2));
            s2.mem == s1.mem && s2.disk == s1.disk
            && forall id :: id in s.mem.jobs ==> Waiting(s2, id) == Waiting(s1, id)
  {
    hide Apply, Enabled, SystemOk, Reachable, Waiting;
    var r1, r2 := Restart(order1, cfg1), Restart(order2, cfg2);
    var s1 := Apply(s, r1);
    ReachableOk(s);
    StepKeepsOk(s, r1);
    RestartMaps(s, order1, cfg1);
    RestartMaps(s1, order2, cfg2);
    forall id | id in s.mem.jobs ensures Waiting(Apply(s1, r2), id) == Waiting(s1, id) {
      RestartQueues(s, r1, id);
      RestartQueues(s1, r2, id);
    }
  }

  // ---- execution bound ------------------------------------------------------------------------

  lemma CounterFlow(s: System, step: Step, id: string)
    requires Enabled(s, step)
    ensures Count(Apply(s, step).execs, id) == Count(s.execs, id) + if Executes(s, step) && s.worker.id == id then 1 else 0
    ensures Count(Apply(s, step).replays, id) == Count(s.replays, id) + if Replays(s, step) && step.id == id then 1 else 0
    ensures Apply(s, step).restarts == s.restarts + if step.Restart? then 1 else 0
  {
    hide SubmitState, ExpireState, CancelState, ReplayState, EventState, BeginState, FinishState, LoadState;
  }

  /** Executions so far, plus those the waiting tokens and the remaining attempts can still cause. */
  function Credit(s: System, id: string): int
    requires id in s.mem.jobs
  {
    Count(s.execs, id) + Waiting(s, id) + s.mem.jobs[id].maxAttempts - s.mem.jobs[id].attempt
  }

  lemma AttemptsOk(s: System, id: string)
    requires SystemOk(s) && id in s.mem.jobs
    ensures 1 <= s.mem.jobs[id].attempt <= s.mem.jobs[id].maxAttempts
    ensures id != JobId(s.mem.nextID + 1)
  {
    FreshId(s.mem);
    assert RecordOk(s.mem.jobs[id], LetterOf(s.mem, id));
  }

  /** Credit grows only on a replay, by at most the attempts it gives back, and on a restart, by at most one. */
  lemma CreditStep(s: System, step: Step, id: string)
    requires SystemOk(s) && Enabled(s, step) && id in s.mem.jobs
    ensures id in Apply(s, step).mem.jobs
    ensures Apply(s, step).mem.jobs[id].maxAttempts == s.mem.jobs[id].maxAttempts
    ensures var gain := Credit(Apply(s, step), id) - Credit(s, id);
            if Replays(s, step) && step.id == id then gain == s.mem.jobs[id].attempt <= s.mem.jobs[id].maxAttempts
            else if step.Restart? then gain <= 1
            else gain <= 0
  {
    hide Apply, Enabled, SystemOk, EventStatus, IsExpired, Waiting;
    AttemptsOk(s, id);
    JobAfter(s, step, id);
    TokenFlow(s, step, id);
    CounterFlow(s, step, id);
    if step.Restart? { RestartCredit(s, step, id); }
  }

  lemma RestartCredit(s: System, step: Step, id: string)
    requires SystemOk(s) && Enabled(s, step) && step.Restart? && id in s.mem.jobs
    ensures Waiting(Apply(s, step), id) <= 1 && Waiting(s, id) >= 0
  {
    hide Apply, Enabled, SystemOk;
    RestartQueues(s, step, id);
  }

  ghost predicate ExecutionsBounded(s: System, id: string) {
    if id in s.mem.jobs
    then Credit(s, id) <= s.mem.jobs[id].maxAttempts * (1 + Count(s.replays, id)) + s.restarts
    else Count(s.execs, id) == 0 && Count(s.replays, id) == 0
  }

  lemma BoundStep(s: System, step: Step, id: string)
    requires SystemOk(s) && ExecutionsBounded(s, id) && Enabled(s, step)
    ensures ExecutionsBounded(Apply(s, step), id)
  {
    hide Apply, Enabled, SystemOk, Credit;
    CounterFlow(s, step, id);
    MemKeys(s, step);
    if id in s.mem.jobs {
      var max, r := s.mem.jobs[id].maxAttempts, Count(s.replays, id);
      assert max * (1 + (r + 1)) == max * (1 + r) + max;
      CreditStep(s, step, id);
    } else {
      StepTouchesKnown(s, step);
      if id in Apply(s, step).mem.jobs { NewJobCredit(s, step); }
    }
  }

  lemma StepTouchesKnown(s: System, step: Step)
    requires SystemOk(s) && Enabled(s, step)
    ensures Executes(s, step) ==> s.worker.id in s.mem.jobs
    ensures Replays(s, step) ==> step.id in s.mem.jobs
  {}

  lemma NewJobCredit(s: System, step: Step)
    requires SystemOk(s) && Enabled(s, step) && Creates(s, step)
    ensures var id := JobId(s.mem.nextID + 1);
            && id in Apply(s, step).mem.jobs
            && Apply(s, step).mem.jobs[id].maxAttempts == s.cfg.maxAttempts > 0
            && Credit(Apply(s, step), id) == Count(s.execs, id) + s.cfg.maxAttempts
  {
    var id := JobId(s.mem.nextID + 1);
    FreshId(s.mem);
    assert Waiting(s, id) == 0;
    TokenFlow(s, step, id);
  }

  lemma {:induction false} RunBounded(states: seq<System>, steps: seq<Step>, k: nat, id: string)
    requires IsRun(states, steps) && SystemOk(states[0]) && ExecutionsBounded(states[0], id) && k <= |steps|
    ensures ExecutionsBounded(states[k], id)
  {
    hide Apply, Enabled, SystemOk, ExecutionsBounded;
    if k > 0 {
      RunBounded(states, steps, k - 1, id);
      RunKeepsOk(states, steps, k - 1);
      RunStep(states, steps, k - 1);
      BoundStep(states[k - 1], steps[k - 1], id);
    }
  }

  lemma ReachableBounded(s: System, id: string)
    requires Reachable(s)
    ensures ExecutionsBounded(s, id)
  {
    hide Next;
    var states, steps :| IsRun(states, steps) && Init(states[0]) && states[|steps|] == s;
    InitOk(states[0]);
    RunBounded(states, steps, |steps|, id);
  }

  /** The executor is called for one job at most MaxAttempts times per submission or replay, plus once per restart. */
  lemma ExecutionBound(s: System, id: string)
    requires Reachable(s) && id in s.mem.jobs
    ensures Count(s.execs, id) <= s.mem.jobs[id].maxAttempts * (1 + Count(s.replays, id)) + s.restarts
  {
    hide Reachable, SystemOk;
    ReachableOk(s);
    AttemptsOk(s, id);
    ReachableBounded(s, id);
  }

  // ---- permanence ---------------------------------------------------------------------------------

  ghost predicate NoReplayOf(steps: seq<Step>, id: string) {
    forall i :: 0 <= i < |steps| && steps[i].ReplayJob? ==> steps[i].id != id
  }

  lemma CanceledStep(s: System, step: Step, id: string)
    requires SystemOk(s) && Enabled(s, step) && id in s.mem.jobs && s.mem.jobs[id].status == Canceled
    requires step.ReplayJob? ==> step.id != id
    ensures id in Apply(s, step).mem.jobs && Apply(s, step).mem.jobs[id].status == Canceled
  {
    hide Apply, Enabled, SystemOk, EventStatus;
    JobAfter(s, step, id);
  }

  /** Without a replay of it, a canceled job stays canceled whatever tokens, executions, events or restarts occur. */
  lemma {:induction false} CanceledIsSticky(states: seq<System>, steps: seq<Step>, k: nat, id: string)
    requires IsRun(states, steps) && Reachable(states[0]) && NoReplayOf(steps, id)
    requires id in states[0].mem.jobs && states[0].mem.jobs[id].status == Canceled
    requires k <= |steps|
    ensures id in states[k].mem.jobs && states[k].mem.jobs[id].status == Canceled
  {
    hide Apply, Enabled, SystemOk, Reachable;
    if k > 0 {
      CanceledIsSticky(states, steps, k - 1, id);
      ReachableOk(states[0]);
      RunKeepsOk(states, steps, k - 1);
      RunStep(states, steps, k - 1);
      CanceledStep(states[k - 1], steps[k - 1], id);
    }
  }

  /** An expired job was expired by a clock reading past its deadline. */
  predicate PastDeadline(s: System, id: string)
    requires id in s.mem.jobs
  {
    s.mem.jobs[id].status == Expired ==> IsExpired(s.mem.jobs[id], s.clock)
  }

  lemma ClockFlow(s: System, step: Step)
    requires Enabled(s, step)
    ensures s.clock <= Apply(s, step).clock
    ensures step.ExpireJob? || step.CancelJob? || step.ReceiveEvent? ==> step.t <= Apply(s, step).clock
    ensures step.WorkerBegin? || step.WorkerFinish? ==> step.t1 <= Apply(s, step).clock
  {
    hide SubmitState, ExpireState, CancelState, ReplayState, EventState, BeginState, FinishState, LoadState;
  }

  lemma DeadlineStep(s: System, step: Step, id: string)
    requires SystemOk(s) && Enabled(s, step) && id in s.mem.jobs && PastDeadline(s, id)
    ensures id in Apply(s, step).mem.jobs && PastDeadline(Apply(s, step), id)
  {
    hide Apply, Enabled, SystemOk, EventStatus;
    JobAfter(s, step, id);
    ClockFlow(s, step);
  }

  lemma NewJobQueued(s: System, step: Step, id: string)
    requires SystemOk(s) && Enabled(s, step) && id !in s.mem.jobs && id in Apply(s, step).mem.jobs
    ensures PastDeadline(Apply(s, step), id)
  {
    MemKeys(s, step);
  }

  ghost predicate AllPastDeadline(s: System) {
    forall id :: id in s.mem.jobs ==> PastDeadline(s, id)
  }

  lemma DeadlinesStep(s: System, step: Step)
    requires SystemOk(s) && Enabled(s, step) && AllPastDeadline(s)
    ensures AllPastDeadline(Apply(s, step))
  {
    hide Apply, Enabled, SystemOk, PastDeadline;
    var s' := Apply(s, step);
    forall id | id in s'.mem.jobs ensures PastDeadline(s', id) {
      if id in s.mem.jobs { DeadlineStep(s, step, id); } else { NewJobQueued(s, step, id); }
    }
  }

  lemma {:induction false} RunPastDeadline(states: seq<System>, steps: seq<Step>, k: nat)
    requires IsRun(states, steps) && SystemOk(states[0]) && AllPastDeadline(states[0]) && k <= |steps|
    ensures AllPastDeadline(states[k])
  {
    hide Apply, Enabled, SystemOk, AllPastDeadline;
    if k > 0 {
      RunPastDeadline(states, steps, k - 1);
      RunKeepsOk(states, steps, k - 1);
      RunStep(states, steps, k - 1);
      DeadlinesStep(states[k - 1], steps[k - 1]);
    }
  }

  lemma ReachablePastDeadline(s: System)
    requires Reachable(s)
    ensures AllPastDeadline(s)
  {
    hide Next;
    var states, steps :| IsRun(states, steps) && Init(states[0]) && states[|steps|] == s;
    InitOk(states[0]);
    RunPastDeadline(states, steps, |steps|);
  }

  lemma ExpiredStep(s: System, step: Step, id: string)
    requires SystemOk(s) && Enabled(s, step) && Timely(s, step)
    requires id in s.mem.jobs && s.mem.jobs[id].status == Expired && PastDeadline(s, id)
    requires step.ReplayJob? ==> step.id != id
    ensures id in Apply(s, step).mem.jobs && Apply(s, step).mem.jobs[id].status == Expired
  {
    hide Apply, Enabled, SystemOk, EventStatus;
    JobAfter(s, step, id);
  }

  /** With a clock that never goes back, the same holds of an expired job. */
  lemma {:induction false} ExpiredIsSticky(states: seq<System>, steps: seq<Step>, k: nat, id: string)
    requires IsRun(states, steps) && TimelyRun(states, steps) && Reachable(states[0]) && NoReplayOf(steps, id)
    requires id in states[0].mem.jobs && states[0].mem.jobs[id].status == Expired
    requires k <= |steps|
    ensures id in states[k].mem.jobs && states[k].mem.jobs[id].status == Expired
  {
    hide Apply, Enabled, SystemOk, Reachable, PastDeadline, Timely;
    if k > 0 {
      ExpiredIsSticky(states, steps, k - 1, id);
      ReachableOk(states[0]);
      ReachablePastDeadline(states[0]);
      RunKeepsOk(states, steps, k - 1);
      RunPastDeadline(states, steps, k - 1);
      RunStep(states, steps, k - 1);
      ExpiredStep(states[k - 1], steps[k - 1], id);
    }
  }

  predicate Quiet(s: System, id: string) {
    id in s.mem.jobs && Terminal(s.mem.jobs[id].status) && !InFlight(s, id)
  }

  lemma NotWaiting(s: System, id: string)
    requires Waiting(s, id) == 0
    ensures s.worker != Holding(id)
  {}

  lemma QuietStep(s: System, step: Step, id: string)
    requires SystemOk(s) && Enabled(s, step) && Quiet(s, id)
    requires step.ReplayJob? ==> step.id != id
    ensures Quiet(Apply(s, step), id) && Apply(s, step).mem.jobs[id] == s.mem.jobs[id]
    ensures Count(Apply(s, step).execs, id) == Count(s.execs, id)
  {
    hide Apply, Enabled, SystemOk, EventStatus, IsExpired, Waiting;
    NotWaiting(s, id);
    AttemptsOk(s, id);
    JobAfter(s, step, id);
    TokenFlow(s, step, id);
    ExecutingFlow(s, step, id);
    CounterFlow(s, step, id);
    if step.Restart? { RestartQueues(s, step, id); }
  }

  /**
   * A terminal job with no token and no execution in flight keeps its whole record, and is never executed
   * again, until it is replayed.
   */
  lemma {:induction false} QuietIsPermanent(states: seq<System>, steps: seq<Step>, k: nat, id: string)
    requires IsRun(states, steps) && Reachable(states[0]) && NoReplayOf(steps, id)
    requires Quiet(states[0], id) && k <= |steps|
    ensures Quiet(states[k], id) && states[k].mem.jobs[id] == states[0].mem.jobs[id]
    ensures Count(states[k].execs, id) == Count(states[0].execs, id)
  {
    hide Apply, Enabled, SystemOk, Reachable, InFlight;
    if k > 0 {
      QuietIsPermanent(states, steps, k - 1, id);
      ReachableOk(states[0]);
      RunKeepsOk(states, steps, k - 1);
      RunStep(states, steps, k - 1);
      QuietStep(states[k - 1], steps[k - 1], id);
    }
  }
}
