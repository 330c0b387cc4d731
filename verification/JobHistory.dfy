/**
 * What a job's record tells of its history. What can happen to a job is spelled out from the step alone; then each
 * field of the record is given by what happened, step by step and over whole runs.
 */
module JobHistory {
  import opened Text
  import opened Jobs
  import opened JobMachine
  import opened JobInvariants
  import opened JobTheorems
  import JobReopen

  // ---- what can happen to a job ---------------------------------------------------------

  predicate Live(j: JobRecord) {
    j.status == Queued || j.status == Running
  }

  predicate Late(j: JobRecord, t: Time) {
    j.expiresAt.Some? && t > j.expiresAt.value
  }

  /** The worker's begin or finish of this job, which was not canceled meanwhile. */
  predicate Begins(s: System, step: Step, id: string) {
    step.WorkerBegin? && s.worker == Holding(id)
  }

  predicate Finishes(s: System, step: Step, id: string) {
    step.WorkerFinish? && s.worker == Executing(id)
  }

  predicate Reports(s: System, step: Step, id: string, status: string)
    requires id in s.mem.jobs
  {
    step.ReceiveEvent? && step.ev.jobID == id && TrimSpace(step.ev.status) == status && Live(s.mem.jobs[id])
  }

  /** The executor answers a result in time, or an event reports success. */
  predicate Succeeds(s: System, step: Step, id: string)
    requires id in s.mem.jobs
  {
    var j := s.mem.jobs[id];
    || (Finishes(s, step, id) && step.outcome.Success? && j.status != Canceled && !Late(j, step.t1))
    || Reports(s, step, id, "succeeded")
  }

  /** The result it succeeds with. */
  function ResultOf(step: Step): Option<ExpertResult> {
    if step.WorkerFinish? && step.outcome.Success? then Some(step.outcome.result)
    else if step.ReceiveEvent? then step.ev.result
    else None
  }

  /** The executor fails, whatever that means for the job. */
  predicate Errs(s: System, step: Step, id: string) {
    Finishes(s, step, id) && step.outcome.Error?
  }

  /** It fails in time, and the job has an attempt left. */
  predicate Requeues(s: System, step: Step, id: string)
    requires id in s.mem.jobs
  {
    var j := s.mem.jobs[id];
    Errs(s, step, id) && j.status != Canceled && !Late(j, step.t1) && j.attempt < j.maxAttempts
  }

  /** Or it has none. */
  predicate Exhausts(s: System, step: Step, id: string)
    requires id in s.mem.jobs
  {
    var j := s.mem.jobs[id];
    Errs(s, step, id) && j.status != Canceled && !Late(j, step.t1) && j.attempt >= j.maxAttempts
  }

  predicate Cancels(s: System, step: Step, id: string)
    requires id in s.mem.jobs
  {
    var j := s.mem.jobs[id];
    || (step.CancelJob? && step.id == id && step.tenantID == j.tenantID && step.projectID == j.projectID && Live(j))
    || Reports(s, step, id, "canceled")
  }

  /** Somebody looks at the job after its deadline: a reader while it is unfinished, the worker unless it is canceled. */
  predicate Expires(s: System, step: Step, id: string)
    requires id in s.mem.jobs
  {
    var j := s.mem.jobs[id];
    || (step.ExpireJob? && step.id == id && Live(j) && Late(j, step.t))
    || (Begins(s, step, id) && j.status != Canceled && Late(j, step.t1))
    || (Finishes(s, step, id) && !step.outcome.AsyncAccepted? && j.status != Canceled && Late(j, step.t1))
  }

  predicate Starts(s: System, step: Step, id: string)
    requires id in s.mem.jobs
  {
    var j := s.mem.jobs[id];
    Begins(s, step, id) && j.status != Canceled && !Late(j, step.t1)
  }

  /** The executor accepts the job and will report later. */
  predicate Defers(s: System, step: Step, id: string)
    requires id in s.mem.jobs
  {
    var j := s.mem.jobs[id];
    Finishes(s, step, id) && step.outcome.AsyncAccepted? && j.status != Canceled && !Late(j, step.t1)
  }

  predicate Replayed(s: System, step: Step, id: string)
    requires id in s.mem.jobs
  {
    var j := s.mem.jobs[id];
    && step.ReplayJob? && step.id == id && step.tenantID == j.tenantID && step.projectID == j.projectID
    && (j.status == Failed || j.status == Canceled || j.status == Expired)
  }

  /** A restart finds it running. */
  predicate Recovers(s: System, step: Step, id: string)
    requires id in s.mem.jobs
  {
    step.Restart? && s.mem.jobs[id].status == Running
  }

  /** The clock reading that becomes the time of the change. */
  function Stamp(step: Step): Time {
    match step
    case SubmitJob(_, t) => t
    case ExpireJob(_, t) => t
    case CancelJob(_, _, _, t) => t
    case ReplayJob(_, _, _, t) => t
    case ReceiveEvent(_, t) => t
    case WorkerBegin(_, t2) => t2
    case WorkerFinish(outcome, t1, t2) => if outcome.AsyncAccepted? then t2 else t1
    case _ => 0
  }

  // ---- what a step makes of each field -----------------------------------------------------

  /** The status is that of what happened, and stays when nothing did. */
  ghost predicate StatusLaw(s: System, step: Step, id: string, j': JobRecord)
    requires id in s.mem.jobs
  {
    j'.status ==
    if Succeeds(s, step, id) then Succeeded
    else if Exhausts(s, step, id) || Reports(s, step, id, "failed") then Failed
    else if Cancels(s, step, id) then Canceled
    else if Expires(s, step, id) then Expired
    else if Starts(s, step, id) || Defers(s, step, id) then Running
    else if Requeues(s, step, id) || Replayed(s, step, id) || Recovers(s, step, id) then Queued
    else s.mem.jobs[id].status
  }

  /** An event that cancels counts as progress, a call does not. */
  ghost predicate ProgressLaw(s: System, step: Step, id: string, j': JobRecord)
    requires id in s.mem.jobs
  {
    j'.progress ==
    if Succeeds(s, step, id) || Exhausts(s, step, id) || Reports(s, step, id, "failed") || Reports(s, step, id, "canceled")
    then 100
    else if Defers(s, step, id) then 60
    else if Starts(s, step, id) then 30
    else if Requeues(s, step, id) || Replayed(s, step, id) || Recovers(s, step, id) then 0
    else s.mem.jobs[id].progress
  }

  ghost predicate AttemptLaw(s: System, step: Step, id: string, j': JobRecord)
    requires id in s.mem.jobs
  {
    j'.attempt ==
    if Requeues(s, step, id) then s.mem.jobs[id].attempt + 1
    else if Replayed(s, step, id) then 1
    else s.mem.jobs[id].attempt
  }

  /** Any executor error is noted, even on a canceled or expired job; success and replay forget it. */
  ghost predicate ErrorLaw(s: System, step: Step, id: string, j': JobRecord)
    requires id in s.mem.jobs
  {
    j'.lastError ==
    if Errs(s, step, id) then Some(step.outcome.message)
    else if Reports(s, step, id, "failed") then step.ev.error
    else if Succeeds(s, step, id) || Replayed(s, step, id) then None
    else s.mem.jobs[id].lastError
  }

  ghost predicate ResultLaw(s: System, step: Step, id: string, j': JobRecord)
    requires id in s.mem.jobs
  {
    j'.result == if Succeeds(s, step, id) then ResultOf(step) else s.mem.jobs[id].result
  }

  /** Something happened that is written down with its time. */
  predicate Touches(s: System, step: Step, id: string)
    requires id in s.mem.jobs
  {
    || Succeeds(s, step, id) || Errs(s, step, id) || Reports(s, step, id, "failed") || Cancels(s, step, id)
    || Expires(s, step, id) || Starts(s, step, id) || Defers(s, step, id) || Replayed(s, step, id)
  }

  ghost predicate TimeLaw(s: System, step: Step, id: string, j': JobRecord)
    requires id in s.mem.jobs
  {
    j'.updatedAt == if Touches(s, step, id) then Stamp(step) else s.mem.jobs[id].updatedAt
  }

  /** What never changes once the job exists. */
  predicate SameOrigin(j: JobRecord, j': JobRecord) {
    && j'.id == j.id && j'.tenantID == j.tenantID && j'.projectID == j.projectID
    && j'.expertID == j.expertID && j'.expertName == j.expertName && j'.expertType == j.expertType && j'.date == j.date
    && j'.submittedAt == j.submittedAt && j'.expiresAt == j.expiresAt
    && j'.maxAttempts == j.maxAttempts && j'.callback == j.callback
  }

  ghost predicate RecordLaw(s: System, step: Step, id: string, j': JobRecord)
    requires id in s.mem.jobs
  {
    && StatusLaw(s, step, id, j') && ProgressLaw(s, step, id, j') && AttemptLaw(s, step, id, j')
    && ErrorLaw(s, step, id, j') && ResultLaw(s, step, id, j') && TimeLaw(s, step, id, j')
    && SameOrigin(s.mem.jobs[id], j')
  }

  lemma RecordByApi(s: System, step: Step, id: string)
    requires id in s.mem.jobs && !step.WorkerBegin? && !step.WorkerFinish? && !step.ReceiveEvent?
    ensures RecordLaw(s, step, id, JobStep(s, step, id))
  {
    hide BeginChange, FinishChange, EventChange, EventStatus, TrimSpace;
  }

  lemma RecordByEvent(s: System, step: Step, id: string)
    requires id in s.mem.jobs && step.ReceiveEvent?
    ensures RecordLaw(s, step, id, JobStep(s, step, id))
  {
    hide BeginChange, FinishChange, ExpireChange, CancelChange, ReplayChange, TrimSpace;
  }

  lemma RecordByBegin(s: System, step: Step, id: string)
    requires id in s.mem.jobs && step.WorkerBegin?
    ensures RecordLaw(s, step, id, JobStep(s, step, id))
  {
    hide FinishChange, EventChange, EventStatus, TrimSpace;
  }

  lemma RecordByFinish(s: System, step: Step, id: string)
    requires id in s.mem.jobs && step.WorkerFinish?
    ensures RecordLaw(s, step, id, JobStep(s, step, id))
  {
    hide BeginChange, EventChange, EventStatus, TrimSpace;
  }

  /** Every step makes of every existing job just what happened to it. */
  lemma RecordExactly(s: System, step: Step, id: string)
    requires SystemOk(s) && Enabled(s, step) && id in s.mem.jobs
    ensures id in Apply(s, step).mem.jobs && RecordLaw(s, step, id, Apply(s, step).mem.jobs[id])
  {
    hide Apply, Enabled, SystemOk, RecordLaw, JobStep;
    JobAfter(s, step, id);
    if step.WorkerBegin? { RecordByBegin(s, step, id); }
    else if step.WorkerFinish? { RecordByFinish(s, step, id); }
    else if step.ReceiveEvent? { RecordByEvent(s, step, id); }
    else { RecordByApi(s, step, id); }
  }

  // ---- dead letters -------------------------------------------------------------------------

  /** A letter is written when the job fails, tells why and of what, and goes with a success or a replay. */
  ghost predicate LetterLaw(s: System, step: Step, id: string, letter': Option<DeadLetter>)
    requires id in s.mem.jobs
  {
    var j := s.mem.jobs[id];
    letter' ==
    if Exhausts(s, step, id)
    then Some(DeadLetter(id, j.tenantID, j.projectID, MaxAttemptsExhausted, j.attempt, step.t1, step.outcome.message, Failed))
    else if Reports(s, step, id, "failed")
    then Some(DeadLetter(id, j.tenantID, j.projectID, RuntimeFailed, j.attempt, step.t, TextOf(step.ev.error), Failed))
    else if Succeeds(s, step, id) || Replayed(s, step, id) then None
    else LetterOf(s.mem, id)
  }

  /** What a change of the job makes of its letter. */
  function LetterChanged(letter: Option<DeadLetter>, c: Change): Option<DeadLetter> {
    if c.NoChange? then letter
    else match c.letter
      case KeepLetter => letter
      case DropLetter => None
      case PutLetter(d) => Some(d)
  }

  function LetterStep(s: System, step: Step, id: string): Option<DeadLetter>
    requires id in s.mem.jobs
  {
    if Target(s, step) == Some(id) then LetterChanged(LetterOf(s.mem, id), TargetChange(step, s.mem.jobs[id]))
    else LetterOf(s.mem, id)
  }

  lemma LetterOfChange(st: State, x: string, c: Change, id: string)
    ensures LetterOf(ChangeState(st, x, c), id) == if x == id then LetterChanged(LetterOf(st, id), c) else LetterOf(st, id)
  {}

  lemma LetterByApi(s: System, step: Step, id: string)
    requires id in s.mem.jobs && s.mem.jobs[id].id == id && !step.WorkerBegin? && !step.WorkerFinish?
    ensures LetterLaw(s, step, id, LetterStep(s, step, id))
  {
    hide BeginChange, FinishChange;
  }

  lemma LetterByWorker(s: System, step: Step, id: string)
    requires id in s.mem.jobs && s.mem.jobs[id].id == id && (step.WorkerBegin? || step.WorkerFinish?)
    ensures LetterLaw(s, step, id, LetterStep(s, step, id))
  {
    hide EventChange, EventStatus, TrimSpace;
  }

  lemma LetterAfterPlain(s: System, step: Step, id: string)
    requires SystemOk(s) && Enabled(s, step) && id in s.mem.jobs && Plain(step)
    ensures LetterOf(Apply(s, step).mem, id) == LetterStep(s, step, id)
  {
    hide Apply, Enabled, SystemOk, TargetChange, Target, LetterChanged, LetterOf, ChangeState;
    MemAfter(s, step);
    var target := Target(s, step);
    if target.Some? && target.value in s.mem.jobs {
      LetterOfChange(s.mem, target.value, TargetChange(step, s.mem.jobs[target.value]), id);
    }
  }

  lemma LetterAfterSubmit(s: System, step: Step, id: string)
    requires IdsOk(s.mem) && id in s.mem.jobs && step.SubmitJob?
    ensures LetterOf(Apply(s, step).mem, id) == LetterOf(s.mem, id)
  {
    FreshId(s.mem);
    hide ScopedKey, JobId, CloneCallback, IdsOk;
  }

  lemma LetterAfterRestart(s: System, step: Step, id: string)
    requires s.disk == s.mem && step.Restart?
    ensures LetterOf(Apply(s, step).mem, id) == LetterOf(s.mem, id)
  {
    assert Apply(s, step).mem == LoadState(s.disk, step.cfg);
    hide Apply;
  }

  lemma LetterAfter(s: System, step: Step, id: string)
    requires SystemOk(s) && Enabled(s, step) && id in s.mem.jobs
    ensures LetterOf(Apply(s, step).mem, id) == LetterStep(s, step, id)
  {
    hide Apply, Enabled, StateOk, TokensOk, TargetChange, LetterOf;
    if step.SubmitJob? {
      StateIds(s);
      LetterAfterSubmit(s, step, id);
    } else if step.Restart? {
      LetterAfterRestart(s, step, id);
    } else {
      LetterAfterPlain(s, step, id);
    }
  }

  lemma StateIds(s: System)
    requires SystemOk(s)
    ensures IdsOk(s.mem) && forall id :: id in s.mem.jobs ==> s.mem.jobs[id].id == id
  {
    hide TokensOk;
  }

  lemma LetterExactly(s: System, step: Step, id: string)
    requires SystemOk(s) && Enabled(s, step) && id in s.mem.jobs
    ensures LetterLaw(s, step, id, LetterOf(Apply(s, step).mem, id))
  {
    hide Apply, Enabled, SystemOk, LetterLaw, LetterStep, LetterOf;
    LetterAfter(s, step, id);
    StateIds(s);
    if step.WorkerBegin? || step.WorkerFinish? { LetterByWorker(s, step, id); } else { LetterByApi(s, step, id); }
  }

  // ---- submits --------------------------------------------------------------------------------

  /** A callback is kept when it has a URL, without the blanks around it and its algorithm. */
  predicate CallbackLaw(given: Option<Callback>, kept: Option<Callback>) {
    match given
    case None => kept == None
    case Some(cb) =>
      if TrimSpace(cb.url) == "" then kept == None
      else
        && kept.Some? && kept.value.url == TrimSpace(cb.url)
        && (kept.value.signing.Some? <==> cb.signing.Some?)
        && (cb.signing.Some? ==>
              && kept.value.signing.value.algorithm == TrimSpace(cb.signing.value.algorithm)
              && kept.value.signing.value.secretRef == cb.signing.value.secretRef)
  }

  /** What stays of the submission and the configuration it met. */
  predicate OriginLaw(sub: Submission, t: Time, cfg: Config, id: string, j: JobRecord) {
    && j.id == id && j.tenantID == sub.tenantID && j.projectID == sub.projectID
    && j.expertID == sub.expertID && j.expertName == sub.expertName && j.expertType == sub.expertType && j.date == sub.date
    && j.submittedAt == t && j.expiresAt == Some(t + cfg.jobTTL) && j.maxAttempts == cfg.maxAttempts
    && CallbackLaw(sub.callback, j.callback)
  }

  /** How a job begins. */
  predicate FreshLaw(t: Time, j: JobRecord) {
    && j.status == Queued && j.progress == 0 && j.attempt == 1
    && j.updatedAt == t && j.lastError == None && j.result == None
  }

  lemma NewJobLaw(st: State, cfg: Config, sub: Submission, t: Time)
    ensures OriginLaw(sub, t, cfg, JobId(st.nextID + 1), NewJob(st, cfg, sub, t)) && FreshLaw(t, NewJob(st, cfg, sub, t))
  {
    hide TrimSpace, JobId;
  }

  /** A job appears only by a submit, whose answer is that very job, and has no dead letter. */
  lemma CreatedStep(s: System, step: Step, id: string)
    requires SystemOk(s) && Enabled(s, step) && id !in s.mem.jobs && id in Apply(s, step).mem.jobs
    ensures step.SubmitJob? && OriginLaw(step.sub, step.t, s.cfg, id, Apply(s, step).mem.jobs[id])
    ensures FreshLaw(step.t, Apply(s, step).mem.jobs[id]) && LetterOf(Apply(s, step).mem, id) == None
    ensures SubmitAnswer(s.mem, s.cfg, step.sub, step.t) == Accepted(Apply(s, step).mem.jobs[id])
  {
    hide Apply, Enabled, SystemOk, NewJob, OriginLaw, FreshLaw, JobId, KeyOf, KnownKey, SubmitAnswer, LetterOf;
    MemKeys(s, step);
    NewJobLaw(s.mem, s.cfg, step.sub, step.t);
    Submitted(s, step);
  }

  lemma Submitted(s: System, step: Step)
    requires step.SubmitJob? && !KnownKey(s.mem, step.sub)
    ensures var s', id := Apply(s, step), JobId(s.mem.nextID + 1);
            && id in s'.mem.jobs && s'.mem.jobs[id] == NewJob(s.mem, s.cfg, step.sub, step.t)
            && LetterOf(s'.mem, id) == None
            && SubmitAnswer(s.mem, s.cfg, step.sub, step.t) == Accepted(NewJob(s.mem, s.cfg, step.sub, step.t))
  {
    assert NewJob(s.mem, s.cfg, step.sub, step.t).id == JobId(s.mem.nextID + 1);
    hide NewJob, JobId, KeyOf;
  }

  // ---- loading a snapshot -----------------------------------------------------------------------

  /** What a restart makes of any stored job, also one this server would not have written. */
  lemma RestoreExactly(j: JobRecord, cfg: Config)
    ensures var r := Restore(j, cfg);
            && r.status == (if j.status == Running then Queued else j.status)
            && r.progress == (if j.status == Running then 0 else j.progress)
            && r.maxAttempts == (if j.maxAttempts > 0 then j.maxAttempts else cfg.maxAttempts)
            && CallbackLaw(j.callback, r.callback)
            && r == j.(status := r.status, progress := r.progress, maxAttempts := r.maxAttempts, callback := r.callback)
  {
    hide TrimSpace;
  }

  // ---- over runs --------------------------------------------------------------------------------

  lemma {:induction false} OriginKept(states: seq<System>, steps: seq<Step>, i: nat, k: nat, id: string)
    requires IsRun(states, steps) && SystemOk(states[0]) && i <= k <= |steps| && id in states[i].mem.jobs
    ensures id in states[k].mem.jobs && SameOrigin(states[i].mem.jobs[id], states[k].mem.jobs[id])
  {
    hide Apply, Enabled, SystemOk;
    if i < k {
      OriginKept(states, steps, i, k - 1, id);
      StepInRun(states, steps, k - 1, id);
      hide StatusLaw, ProgressLaw, AttemptLaw, ErrorLaw, ResultLaw, TimeLaw;
    }
  }

  /** The laws of one step, at a place in a run. */
  lemma StepInRun(states: seq<System>, steps: seq<Step>, n: nat, id: string)
    requires IsRun(states, steps) && SystemOk(states[0]) && n < |steps| && id in states[n].mem.jobs
    ensures id in states[n + 1].mem.jobs && RecordLaw(states[n], steps[n], id, states[n + 1].mem.jobs[id])
    ensures LetterLaw(states[n], steps[n], id, LetterOf(states[n + 1].mem, id))
  {
    hide Apply, Enabled, SystemOk, RecordLaw, LetterLaw;
    RunKeepsOk(states, steps, n);
    RunStep(states, steps, n);
    RecordExactly(states[n], steps[n], id);
    LetterExactly(states[n], steps[n], id);
  }

  /**
   * A job that appears at step `i` is one a submit asked for, and keeps in every later state what the submission and
   * the configuration of that moment gave it: its scope, expert, date and callback, its deadline a TTL after the
   * submit, and its attempts.
   */
  lemma CreatedExactly(states: seq<System>, steps: seq<Step>, i: nat, k: nat, id: string)
    requires IsRun(states, steps) && Reachable(states[0]) && i < k <= |steps|
    requires id !in states[i].mem.jobs && id in states[i + 1].mem.jobs
    ensures steps[i].SubmitJob? && id in states[k].mem.jobs
    ensures OriginLaw(steps[i].sub, steps[i].t, states[i].cfg, id, states[k].mem.jobs[id])
  {
    hide Apply, Enabled, SystemOk, Reachable, TrimSpace;
    ReachableOk(states[0]);
    CreatedInRun(states, steps, i, id);
    OriginKept(states, steps, i + 1, k, id);
  }

  /** The clock readings a step compares with a deadline are not past it. */
  predicate OnTime(step: Step, deadline: Time) {
    match step
    case ExpireJob(_, t) => t <= deadline
    case WorkerBegin(t1, _) => t1 <= deadline
    case WorkerFinish(_, t1, _) => t1 <= deadline
    case _ => true
  }

  lemma {:induction false} OnTimeKeeps(states: seq<System>, steps: seq<Step>, i: nat, k: nat, id: string, deadline: Time)
    requires IsRun(states, steps) && SystemOk(states[0]) && i <= k <= |steps| && id in states[i].mem.jobs
    requires states[i].mem.jobs[id].expiresAt == Some(deadline) && states[i].mem.jobs[id].status != Expired
    requires forall n :: i <= n < k ==> OnTime(steps[n], deadline)
    ensures id in states[k].mem.jobs && states[k].mem.jobs[id].expiresAt == Some(deadline)
    ensures states[k].mem.jobs[id].status != Expired
  {
    hide Apply, Enabled, SystemOk, TrimSpace;
    if i < k {
      OnTimeKeeps(states, steps, i, k - 1, id, deadline);
      StepInRun(states, steps, k - 1, id);
      assert OnTime(steps[k - 1], deadline);
      hide ProgressLaw, AttemptLaw, ErrorLaw, ResultLaw, TimeLaw, LetterLaw;
    }
  }

  /** No step expires a job whose clock readings are within the TTL of its submit. */
  lemma NotExpiredBefore(states: seq<System>, steps: seq<Step>, i: nat, k: nat, id: string)
    requires IsRun(states, steps) && Reachable(states[0]) && i < k <= |steps|
    requires id !in states[i].mem.jobs && id in states[i + 1].mem.jobs && steps[i].SubmitJob?
    requires forall n :: i < n < k ==> OnTime(steps[n], steps[i].t + states[i].cfg.jobTTL)
    ensures id in states[k].mem.jobs && states[k].mem.jobs[id].status != Expired
  {
    hide Apply, Enabled, SystemOk, Reachable, OnTime, TrimSpace;
    ReachableOk(states[0]);
    CreatedInRun(states, steps, i, id);
    OnTimeKeeps(states, steps, i + 1, k, id, steps[i].t + states[i].cfg.jobTTL);
  }

  /** The result is the last one the job succeeded with, through every step and restart since. */
  lemma {:induction false} LastResult(states: seq<System>, steps: seq<Step>, m: nat, k: nat, id: string)
    requires IsRun(states, steps) && SystemOk(states[0]) && m < k <= |steps| && id in states[m].mem.jobs
    requires Succeeds(states[m], steps[m], id)
    requires forall n :: m < n < k && id in states[n].mem.jobs ==> !Succeeds(states[n], steps[n], id)
    ensures id in states[k].mem.jobs && states[k].mem.jobs[id].result == ResultOf(steps[m])
  {
    hide IsRun, SystemOk, Succeeds, ResultOf;
    RunLength(states, steps);
    if m + 1 < k { LastResult(states, steps, m, k - 1, id); }
    ResultInRun(states, steps, k - 1, id);
  }

  lemma RunLength(states: seq<System>, steps: seq<Step>)
    requires IsRun(states, steps)
    ensures |states| == |steps| + 1
  {}

  lemma ResultInRun(states: seq<System>, steps: seq<Step>, n: nat, id: string)
    requires IsRun(states, steps) && SystemOk(states[0]) && n < |steps| && id in states[n].mem.jobs
    ensures id in states[n + 1].mem.jobs && ResultLaw(states[n], steps[n], id, states[n + 1].mem.jobs[id])
  {
    StepInRun(states, steps, n, id);
    hide IsRun, SystemOk, StatusLaw, ProgressLaw, AttemptLaw, ErrorLaw, ResultLaw, TimeLaw, LetterLaw;
  }

  lemma CreatedInRun(states: seq<System>, steps: seq<Step>, i: nat, id: string)
    requires IsRun(states, steps) && SystemOk(states[0]) && i < |steps|
    requires id !in states[i].mem.jobs && id in states[i + 1].mem.jobs
    ensures steps[i].SubmitJob? && OriginLaw(steps[i].sub, steps[i].t, states[i].cfg, id, states[i + 1].mem.jobs[id])
    ensures FreshLaw(steps[i].t, states[i + 1].mem.jobs[id])
  {
    hide Apply, Enabled, SystemOk, OriginLaw, FreshLaw;
    RunKeepsOk(states, steps, i);
    RunStep(states, steps, i);
    CreatedStep(states[i], steps[i], id);
  }

  /** And a job that has not succeeded yet has none. */
  lemma {:induction false} NoResultYet(states: seq<System>, steps: seq<Step>, i: nat, k: nat, id: string)
    requires IsRun(states, steps) && SystemOk(states[0]) && i < k <= |steps|
    requires id !in states[i].mem.jobs && id in states[i + 1].mem.jobs
    requires forall n :: i < n < k && id in states[n].mem.jobs ==> !Succeeds(states[n], steps[n], id)
    ensures id in states[k].mem.jobs && states[k].mem.jobs[id].result == None
  {
    hide IsRun, SystemOk, Succeeds, OriginLaw;
    RunLength(states, steps);
    if i + 1 < k {
      NoResultYet(states, steps, i, k - 1, id);
      ResultInRun(states, steps, k - 1, id);
    } else {
      CreatedInRun(states, steps, i, id);
    }
  }

  predicate Fails(s: System, step: Step, id: string)
    requires id in s.mem.jobs
  {
    Exhausts(s, step, id) || Reports(s, step, id, "failed")
  }

  /** The letter that tells of this failure. */
  function LetterTold(s: System, step: Step, id: string): DeadLetter
    requires id in s.mem.jobs && Fails(s, step, id)
  {
    var j := s.mem.jobs[id];
    if Exhausts(s, step, id)
    then DeadLetter(id, j.tenantID, j.projectID, MaxAttemptsExhausted, j.attempt, step.t1, step.outcome.message, Failed)
    else DeadLetter(id, j.tenantID, j.projectID, RuntimeFailed, j.attempt, step.t, TextOf(step.ev.error), Failed)
  }

  predicate Settles(s: System, step: Step, id: string)
    requires id in s.mem.jobs
  {
    Fails(s, step, id) || Succeeds(s, step, id) || Replayed(s, step, id)
  }

  /** The dead letter tells of the last failure, until the job succeeds or is replayed. */
  lemma {:induction false} LastLetter(states: seq<System>, steps: seq<Step>, m: nat, k: nat, id: string)
    requires IsRun(states, steps) && SystemOk(states[0]) && m < k <= |steps| && id in states[m].mem.jobs
    requires Settles(states[m], steps[m], id)
    requires forall n :: m < n < k && id in states[n].mem.jobs ==> !Settles(states[n], steps[n], id)
    ensures id in states[k].mem.jobs
    ensures LetterOf(states[k].mem, id) ==
            if Fails(states[m], steps[m], id) then Some(LetterTold(states[m], steps[m], id)) else None
  {
    hide Apply, Enabled, SystemOk, Succeeds, Exhausts, Reports, Replayed, LetterOf;
    if m + 1 < k { LastLetter(states, steps, m, k - 1, id); }
    StepInRun(states, steps, k - 1, id);
    hide RecordLaw;
  }

  /** How often the job was queued for another attempt in steps i .. k-1. */
  ghost function Requeued(states: seq<System>, steps: seq<Step>, i: nat, k: nat, id: string): nat
    requires IsRun(states, steps) && i <= k <= |steps|
  {
    if i == k then 0
    else
      var s := states[k - 1];
      Requeued(states, steps, i, k - 1, id) + if id in s.mem.jobs && Requeues(s, steps[k - 1], id) then 1 else 0
  }

  /** Without a replay, the attempts grow by one for each of them and by nothing else. */
  lemma {:induction false} AttemptsCount(states: seq<System>, steps: seq<Step>, i: nat, k: nat, id: string)
    requires IsRun(states, steps) && SystemOk(states[0]) && i <= k <= |steps| && id in states[i].mem.jobs
    requires forall n :: i <= n < k && id in states[n].mem.jobs ==> !Replayed(states[n], steps[n], id)
    ensures id in states[k].mem.jobs
    ensures states[k].mem.jobs[id].attempt == states[i].mem.jobs[id].attempt + Requeued(states, steps, i, k, id)
  {
    hide Apply, Enabled, SystemOk, Requeues, Replayed;
    if i < k {
      AttemptsCount(states, steps, i, k - 1, id);
      StepInRun(states, steps, k - 1, id);
      hide StatusLaw, ProgressLaw, ErrorLaw, ResultLaw, TimeLaw, LetterLaw;
    }
  }

  // ---- answers --------------------------------------------------------------------------------------

  predicate Visible(s: System, id: string, tenantID: string, projectID: string) {
    id in s.mem.jobs && s.mem.jobs[id].tenantID == tenantID && s.mem.jobs[id].projectID == projectID
  }

  /** A cancel or replay is done exactly when it happens to the job; a job of another scope is not found. */
  lemma CallAnswers(s: System, id: string, tenantID: string, projectID: string, t: Time)
    ensures var r := CancelAnswer(s.mem, id, tenantID, projectID);
            && (r == NotFound <==> !Visible(s, id, tenantID, projectID))
            && (r == Done <==> id in s.mem.jobs && Cancels(s, CancelJob(id, tenantID, projectID, t), id))
            && (r == InvalidTransition <==> Visible(s, id, tenantID, projectID) && !Live(s.mem.jobs[id]))
    ensures var r := ReplayAnswer(s.mem, id, tenantID, projectID);
            && (r == NotFound <==> !Visible(s, id, tenantID, projectID))
            && (r == Done <==> id in s.mem.jobs && Replayed(s, ReplayJob(id, tenantID, projectID, t), id))
            && (r == InvalidTransition <==>
                Visible(s, id, tenantID, projectID) && (Live(s.mem.jobs[id]) || s.mem.jobs[id].status == Succeeded))
  {}

  /** An event is refused for an unknown job, and for an unknown status while the job is unfinished. */
  lemma EventAnswers(s: System, ev: ExpertEvent)
    ensures var r := EventAnswer(s.mem, ev);
            && (r == NotFound <==> ev.jobID !in s.mem.jobs)
            && (r == InvalidInput <==>
                && ev.jobID in s.mem.jobs && Live(s.mem.jobs[ev.jobID])
                && TrimSpace(ev.status) != "succeeded" && TrimSpace(ev.status) != "failed" && TrimSpace(ev.status) != "canceled")
            && (r == NotFound || r == InvalidInput || r == Done)
  {
    hide TrimSpace;
  }

  /** The worker calls the executor exactly for a job it starts, and enqueues again exactly a job it requeues. */
  lemma WorkerAnswers(s: System, step: Step, id: string)
    requires Enabled(s, step) && id in s.mem.jobs
    ensures step.WorkerBegin? ==> (Apply(s, step).worker == Executing(id) <==> Starts(s, step, id))
    ensures step.WorkerBegin? && s.worker == Holding(id) ==> Apply(s, step).worker in {Executing(id), Idle}
    ensures step.WorkerFinish? ==> (Apply(s, step).worker == Retrying(id) <==> Requeues(s, step, id))
    ensures step.WorkerFinish? && s.worker == Executing(id) ==> Apply(s, step).worker in {Retrying(id), Idle}
  {
    hide BeginState, FinishState, SubmitState, ExpireState, CancelState, ReplayState, EventState, LoadState;
  }

  // ---- a result can be replaced -----------------------------------------------------------------------

  /** The worker calls the executor for the job, whose deadline is not past. */
  predicate AtWork(s: System, id: string) {
    s.worker == Executing(id) && id in s.mem.jobs && s.mem.jobs[id].status == Running && !Late(s.mem.jobs[id], s.clock)
  }

  lemma QueueMoves(s: System, id: string)
    requires s.worker == Idle && s.queue == [] && id in s.pending && s.cfg.queueSize > 0
    ensures var s1 := Apply(s, ApiEnqueue(id)); var s2 := Apply(s1, WorkerDequeue);
            && Next(s, ApiEnqueue(id), s1) && Next(s1, WorkerDequeue, s2)
            && s2.mem == s.mem && s2.worker == Holding(id) && s2.clock == s.clock
  {}

  lemma BeginMoves(s: System, id: string)
    requires s.worker == Holding(id) && id in s.mem.jobs && s.mem.jobs[id].status == Queued && !Late(s.mem.jobs[id], s.clock)
    ensures var s' := Apply(s, WorkerBegin(s.clock, s.clock)); Next(s, WorkerBegin(s.clock, s.clock), s') && AtWork(s', id)
  {}

  /** From the start, some run brings a job to work. */
  lemma Working(s: System) returns (e: System, id: string)
    requires Init(s)
    ensures Reachable(e) && AtWork(e, id)
  {
    hide Apply, Enabled, Next, JobId;
    var sub := Submission("t", "p", "", "h", "e", "n", "y", "2026-01-01", None);
    id := JobId(1);
    var submit, begin := SubmitJob(sub, s.clock), WorkerBegin(s.clock, s.clock);
    var s1 := Apply(s, submit);
    var s2 := Apply(s1, ApiEnqueue(id));
    var s3 := Apply(s2, WorkerDequeue);
    e := Apply(s3, begin);
    JobReopen.FirstSubmit(s, sub);
    QueueMoves(s1, id);
    BeginMoves(s3, id);
    var states, steps := [s, s1, s2, s3, e], [submit, ApiEnqueue(id), WorkerDequeue, begin];
    assert IsRun(states, steps);
    assert Reachable(states[|steps|]);
  }

  /** An event overtakes the executor, which then answers as well. */
  lemma AnsweredTwice(s: System, id: string, a: ExpertResult, b: ExpertResult)
    requires AtWork(s, id)
    ensures var event := ReceiveEvent(ExpertEvent(id, "succeeded", Some(a), None), s.clock);
            var finish := WorkerFinish(Success(b), s.clock, s.clock);
            var s1 := Apply(s, event); var s2 := Apply(s1, finish);
            && Next(s, event, s1) && Next(s1, finish, s2) && id in s1.mem.jobs && id in s2.mem.jobs
            && s1.mem.jobs[id].status == s2.mem.jobs[id].status == Succeeded
            && s1.mem.jobs[id].result == Some(a) && s2.mem.jobs[id].result == Some(b)
  {
    TrimOfBare("succeeded", IsSpace);
    hide TrimSpace;
  }

  /**
   * A succeeded job does not keep its result through every step that leaves its status alone: an executor answer that
   * comes after the event replaces it.
   */
  lemma ResultReplaced(s: System, a: ExpertResult, b: ExpertResult)
    requires Init(s)
    ensures exists e, step, id ::
              && Reachable(e) && Enabled(e, step) && id in e.mem.jobs && id in Apply(e, step).mem.jobs
              && e.mem.jobs[id].status == Apply(e, step).mem.jobs[id].status == Succeeded
              && e.mem.jobs[id].result == Some(a) && Apply(e, step).mem.jobs[id].result == Some(b)
  {
    hide Apply, Enabled, AtWork;
    var e, id := Working(s);
    AnsweredTwice(e, id, a, b);
    var event := ReceiveEvent(ExpertEvent(id, "succeeded", Some(a), None), e.clock);
    ReachableNext(e, event);
    var finish := WorkerFinish(Success(b), e.clock, e.clock);
    assert Enabled(Apply(e, event), finish);
  }

  lemma ReachableNext(s: System, step: Step)
    requires Reachable(s) && Enabled(s, step)
    ensures Reachable(Apply(s, step))
  {
    hide Apply, Enabled;
    var states, steps :| IsRun(states, steps) && Init(states[0]) && states[|steps|] == s;
    assert IsRun([s, Apply(s, step)], [step]);
    RunAppend(states, steps, [s, Apply(s, step)], [step]);
    var ss, ts := states + [s, Apply(s, step)][1..], steps + [step];
    assert IsRun(ss, ts) && ss[0] == states[0] && ss[|ts|] == Apply(s, step);
  }
}
