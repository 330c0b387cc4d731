/** What holds in every reachable state of the orchestrator. */
module JobInvariants {
  import opened Text
  import opened Jobs
  import opened JobMachine

  // ---- the records -------------------------------------------------------------------

  /** Job ids are exactly job_1 .. job_nextID, and each record sits under its own id. */
  ghost predicate IdsOk(st: State) {
    && (forall id :: id in st.jobs ==> st.jobs[id].id == id)
    && (forall id :: id in st.jobs ==> exists n: nat :: 1 <= n <= st.nextID && id == JobId(n))
    && (forall n: nat :: 1 <= n <= st.nextID ==> JobId(n) in st.jobs)
  }

  predicate LetterMatches(d: DeadLetter, j: JobRecord) {
    && d.jobID == j.id && d.tenantID == j.tenantID && d.projectID == j.projectID
    && d.attempts == j.attempt && d.failedAt == j.updatedAt
    && d.lastError == TextOf(j.lastError) && d.finalStatus == Failed
  }

  function LetterOf(st: State, id: string): Option<DeadLetter> {
    if id in st.deadLetters then Some(st.deadLetters[id]) else None
  }

  /** A job agrees with its dead-letter entry, if it has one. */
  predicate RecordOk(j: JobRecord, letter: Option<DeadLetter>) {
    && 1 <= j.attempt <= j.maxAttempts
    && j.expiresAt.Some?
    && CloneCallback(j.callback) == j.callback
    && (j.status == Queued ==> j.progress == 0)
    && (j.status == Failed ==> letter.Some? && LetterMatches(letter.value, j))
    && (j.status == Succeeded ==> letter == None && j.lastError == None && j.progress == 100)
  }

  /** An idempotency record names a job submitted under that very key. */
  ghost predicate EntryOk(st: State, key: string)
    requires key in st.idempotency
  {
    && key != ""
    && st.idempotency[key].jobID in st.jobs
    && var j := st.jobs[st.idempotency[key].jobID];
       exists raw :: key == ScopedKey(j.tenantID, j.projectID, raw)
  }

  ghost predicate StateOk(st: State) {
    && IdsOk(st)
    && (forall id :: id in st.jobs ==> RecordOk(st.jobs[id], LetterOf(st, id)))
    && (forall key :: key in st.idempotency ==> EntryOk(st, key))
    && (forall id :: id in st.deadLetters ==> id in st.jobs)
  }

  lemma FreshId(st: State)
    requires IdsOk(st)
    ensures JobId(st.nextID + 1) !in st.jobs
  {
    forall n: nat | 1 <= n <= st.nextID ensures JobId(n) != JobId(st.nextID + 1) { JobIdInjective(n, st.nextID + 1); }
  }

  lemma SubmitKeepsJob(st: State, cfg: Config, sub: Submission, t: Time, id: string)
    requires IdsOk(st) && id in st.jobs
    ensures id in SubmitState(st, cfg, sub, t).jobs && SubmitState(st, cfg, sub, t).jobs[id] == st.jobs[id]
  {
    FreshId(st);
    hide IdsOk, JobId, CloneCallback, ScopedKey;
  }

  lemma OldEntry(st: State, cfg: Config, sub: Submission, t: Time, key: string)
    requires IdsOk(st) && key in st.idempotency && EntryOk(st, key)
    ensures key in SubmitState(st, cfg, sub, t).idempotency && EntryOk(SubmitState(st, cfg, sub, t), key)
  {
    SubmitKeepsJob(st, cfg, sub, t, st.idempotency[key].jobID);
    hide IdsOk, JobId, CloneCallback, ScopedKey;
  }

  lemma NewEntry(st: State, cfg: Config, sub: Submission, t: Time)
    requires KeyOf(sub) != "" && !KnownKey(st, sub)
    ensures KeyOf(sub) in SubmitState(st, cfg, sub, t).idempotency && EntryOk(SubmitState(st, cfg, sub, t), KeyOf(sub))
  {
    assert KeyOf(sub) == ScopedKey(sub.tenantID, sub.projectID, sub.idempotencyKey);
    hide JobId, CloneCallback, ScopedKey;
  }

  lemma SubmitKeepsEntries(st: State, cfg: Config, sub: Submission, t: Time, key: string)
    requires StateOk(st) && key in SubmitState(st, cfg, sub, t).idempotency
    ensures EntryOk(SubmitState(st, cfg, sub, t), key)
  {
    assert key in st.idempotency || (key == KeyOf(sub) != "" && !KnownKey(st, sub));
    hide IdsOk, SubmitState, EntryOk, KeyOf;
    if key in st.idempotency { OldEntry(st, cfg, sub, t, key); } else { NewEntry(st, cfg, sub, t); }
  }

  lemma SubmitKeepsRecords(st: State, cfg: Config, sub: Submission, t: Time, id: string)
    requires StateOk(st) && ConfigOk(cfg) && id in SubmitState(st, cfg, sub, t).jobs
    ensures RecordOk(SubmitState(st, cfg, sub, t).jobs[id], LetterOf(SubmitState(st, cfg, sub, t), id))
  {
    hide EntryOk, CloneCallback, ScopedKey;
    FreshId(st);
    CloneCallbackIdempotent(sub.callback);
    assert id in st.jobs ==> RecordOk(st.jobs[id], LetterOf(st, id));
  }

  lemma SubmitKeepsIds(st: State, cfg: Config, sub: Submission, t: Time)
    requires IdsOk(st)
    ensures IdsOk(SubmitState(st, cfg, sub, t))
  {
    hide ScopedKey;
    var st' := SubmitState(st, cfg, sub, t);
    forall id | id in st'.jobs ensures exists n: nat :: 1 <= n <= st'.nextID && id == JobId(n) {
      if id in st.jobs {
        var n: nat :| 1 <= n <= st.nextID && id == JobId(n);
        assert 1 <= n <= st'.nextID;
      }
    }
  }

  /** Submitting never overwrites a job, and an idempotency record always finds its job. */
  lemma SubmitKeepsOk(st: State, cfg: Config, sub: Submission, t: Time)
    requires StateOk(st) && ConfigOk(cfg)
    ensures StateOk(SubmitState(st, cfg, sub, t))
    ensures JobId(st.nextID + 1) !in st.jobs
    ensures SubmitAnswer(st, cfg, sub, t) != RecordWithoutJob
  {
    hide RecordOk, ScopedKey;
    FreshId(st);
    var st' := SubmitState(st, cfg, sub, t);
    if KnownKey(st, sub) { assert EntryOk(st, KeyOf(sub)); }
    SubmitKeepsIds(st, cfg, sub, t);
    forall key | key in st'.idempotency ensures EntryOk(st', key) { SubmitKeepsEntries(st, cfg, sub, t, key); }
    forall id | id in st'.jobs ensures RecordOk(st'.jobs[id], LetterOf(st', id)) { SubmitKeepsRecords(st, cfg, sub, t, id); }
    hide IdsOk, EntryOk;
  }

  /** What a change leaves in the dead-letter entry of its job. */
  function LetterAfter(letter: Option<DeadLetter>, c: Change): Option<DeadLetter> {
    if c == NoChange || c.letter == KeepLetter then letter
    else if c.letter == DropLetter then None
    else Some(c.letter.letter)
  }

  predicate SameIdentity(j: JobRecord, j': JobRecord) {
    && j'.id == j.id && j'.tenantID == j.tenantID && j'.projectID == j.projectID
    && j'.maxAttempts == j.maxAttempts && j'.expiresAt == j.expiresAt
  }

  ghost predicate ChangeOk(j: JobRecord, letter: Option<DeadLetter>, c: Change) {
    c.Change? ==> SameIdentity(j, c.job) && RecordOk(c.job, LetterAfter(letter, c))
  }

  lemma ChangeKeepsOk(st: State, id: string, c: Change)
    requires StateOk(st) && id in st.jobs && ChangeOk(st.jobs[id], LetterOf(st, id), c)
    ensures StateOk(ChangeState(st, id, c))
  {
    var st' := ChangeState(st, id, c);
    forall x | x in st'.jobs ensures RecordOk(st'.jobs[x], LetterOf(st', x)) {
      assert RecordOk(st.jobs[x], LetterOf(st, x));
      if x == id { assert LetterOf(st', x) == LetterAfter(LetterOf(st, x), c); }
      else { assert LetterOf(st', x) == LetterOf(st, x); }
    }
    forall key | key in st'.idempotency ensures EntryOk(st', key) { assert EntryOk(st, key); }
  }

  /** Each critical section keeps job and dead letter in agreement. */
  lemma ApiChangesOk(j: JobRecord, letter: Option<DeadLetter>, t: Time)
    requires RecordOk(j, letter)
    ensures ChangeOk(j, letter, ExpireChange(j, t))
    ensures !Terminal(j.status) ==> ChangeOk(j, letter, CancelChange(j, t))
    ensures Replayable(j.status) ==> ChangeOk(j, letter, ReplayChange(j, t))
    ensures forall status, ev :: ChangeOk(j, letter, EventChange(j, status, ev, t))
  {
    hide CloneCallback;
  }

  lemma WorkerChangesOk(j: JobRecord, letter: Option<DeadLetter>, t1: Time, t2: Time)
    requires RecordOk(j, letter)
    ensures ChangeOk(j, letter, BeginChange(j, t1, t2))
    ensures forall o :: ChangeOk(j, letter, FinishChange(j, o, t1, t2))
  {
    hide CloneCallback;
  }

  lemma RestoreExact(j: JobRecord, letter: Option<DeadLetter>, cfg: Config)
    requires RecordOk(j, letter)
    ensures Restore(j, cfg) == if j.status == Running then j.(status := Queued, progress := 0) else j
    ensures RecordOk(Restore(j, cfg), letter)
  {
    hide CloneCallback;
  }

  lemma LoadEntry(st: State, cfg: Config, key: string)
    requires key in st.idempotency && EntryOk(st, key)
    ensures EntryOk(LoadState(st, cfg), key)
  {
    hide ScopedKey, CloneCallback;
  }

  /** Loading what a correct orchestrator saved only turns running jobs back into queued ones. */
  lemma LoadExact(st: State, cfg: Config)
    requires StateOk(st)
    ensures StateOk(LoadState(st, cfg))
    ensures LoadState(st, cfg).nextID == st.nextID && LoadState(st, cfg).idempotency == st.idempotency
    ensures LoadState(st, cfg).deadLetters == st.deadLetters
    ensures LoadState(st, cfg).jobs.Keys == st.jobs.Keys
    ensures forall id :: id in st.jobs ==>
              LoadState(st, cfg).jobs[id] ==
              if st.jobs[id].status == Running then st.jobs[id].(status := Queued, progress := 0) else st.jobs[id]
  {
    hide Restore, RecordOk, EntryOk, IdsOk;
    var st' := LoadState(st, cfg);
    forall id | id in st.jobs
      ensures st'.jobs[id] ==
              if st.jobs[id].status == Running then st.jobs[id].(status := Queued, progress := 0) else st.jobs[id]
      ensures RecordOk(st'.jobs[id], LetterOf(st', id))
    {
      assert RecordOk(st.jobs[id], LetterOf(st, id));
      RestoreExact(st.jobs[id], LetterOf(st, id), cfg);
    }
    forall key | key in st'.idempotency ensures EntryOk(st', key) { LoadEntry(st, cfg, key); }
    LoadIds(st, cfg);
    hide LetterOf;
  }

  lemma LoadIds(st: State, cfg: Config)
    requires IdsOk(st)
    ensures IdsOk(LoadState(st, cfg))
  {
    hide CloneCallback;
  }

  // ---- tokens ------------------------------------------------------------------------

  function InHand(w: Worker, id: string): nat {
    match w
    case Booting(rest) => multiset(rest)[id]
    case Holding(x) => if x == id then 1 else 0
    case Retrying(x) => if x == id then 1 else 0
    case _ => 0
  }

  /** The tokens of a job on their way to the worker: in the channel, about to be enqueued, or dequeued and not begun. */
  function Waiting(s: System, id: string): nat {
    multiset(s.queue)[id] + s.pending[id] + InHand(s.worker, id)
  }

  predicate InFlight(s: System, id: string) {
    Waiting(s, id) > 0 || s.worker == Executing(id)
  }

  lemma HeadTail(q: seq<string>, id: string)
    requires q != []
    ensures multiset(q)[id] == multiset(q[1..])[id] + if q[0] == id then 1 else 0
  {
    assert q == [q[0]] + q[1..];
  }

  /** Only submit, replay and retry make tokens; only begin and timeouts consume them; a restart starts afresh. */
  function WaitingAfter(s: System, step: Step, id: string): int {
    match step
    case SubmitJob(_, _) => Waiting(s, id) + if Creates(s, step) && JobId(s.mem.nextID + 1) == id then 1 else 0
    case ReplayJob(_, _, _, _) => Waiting(s, id) + if Replays(s, step) && step.id == id then 1 else 0
    case ApiTimeout(x) => Waiting(s, id) - if x == id then 1 else 0
    case WorkerBegin(_, _) => Waiting(s, id) - if s.worker == Holding(id) then 1 else 0
    case WorkerFinish(_, _, _) => Waiting(s, id) + if Retries(s, step) && s.worker.id == id then 1 else 0
    case WorkerTimeout => Waiting(s, id) - if Enqueuing(s.worker) && EnqueueTarget(s.worker) == id then 1 else 0
    case Restart(_, cfg) => if id in PendingIds(LoadState(s.disk, cfg)) then 1 else 0
    case _ => Waiting(s, id)
  }

  lemma SubmitTokens(s: System, step: Step, id: string)
    requires Enabled(s, step) && step.SubmitJob?
    ensures Waiting(Apply(s, step), id) == WaitingAfter(s, step, id)
  {
    hide SubmitState, ReplayState, BeginState, FinishState;
  }

  lemma ReplayTokens(s: System, step: Step, id: string)
    requires Enabled(s, step) && step.ReplayJob?
    ensures Waiting(Apply(s, step), id) == WaitingAfter(s, step, id)
  {
    hide SubmitState, ReplayState, BeginState, FinishState;
  }

  lemma ApiQueueTokens(s: System, step: Step, id: string)
    requires Enabled(s, step) && (step.ApiEnqueue? || step.ApiTimeout?)
    ensures Waiting(Apply(s, step), id) == WaitingAfter(s, step, id)
  {
    hide SubmitState, ReplayState, BeginState, FinishState;
  }

  lemma DequeueTokens(s: System, step: Step, id: string)
    requires Enabled(s, step) && step.WorkerDequeue?
    ensures Waiting(Apply(s, step), id) == WaitingAfter(s, step, id)
  {
    hide SubmitState, ReplayState, BeginState, FinishState;
    HeadTail(s.queue, id);
  }

  lemma BeginTokens(s: System, step: Step, id: string)
    requires Enabled(s, step) && step.WorkerBegin?
    ensures Waiting(Apply(s, step), id) == WaitingAfter(s, step, id)
  {
    hide SubmitState, ReplayState, BeginState, FinishState;
  }

  lemma FinishTokens(s: System, step: Step, id: string)
    requires Enabled(s, step) && step.WorkerFinish?
    ensures Waiting(Apply(s, step), id) == WaitingAfter(s, step, id)
  {
    hide SubmitState, ReplayState, BeginState, FinishState;
  }

  lemma EnqueueTokens(s: System, step: Step, id: string)
    requires Enabled(s, step) && step.WorkerEnqueue?
    ensures Waiting(Apply(s, step), id) == WaitingAfter(s, step, id)
  {
    if s.worker.Booting? { HeadTail(s.worker.rest, id); }
  }

  lemma TimeoutTokens(s: System, step: Step, id: string)
    requires Enabled(s, step) && step.WorkerTimeout?
    ensures Waiting(Apply(s, step), id) == WaitingAfter(s, step, id)
  {
    if s.worker.Booting? { HeadTail(s.worker.rest, id); }
  }

  lemma RestartTokens(s: System, step: Step, id: string)
    requires Enabled(s, step) && step.Restart?
    ensures Waiting(Apply(s, step), id) == WaitingAfter(s, step, id)
  {
    hide SubmitState, ReplayState, BeginState, FinishState;
    assert multiset(step.order)[id] == multiset(PendingIds(LoadState(s.disk, step.cfg)))[id];
  }

  lemma TokenFlow(s: System, step: Step, id: string)
    requires Enabled(s, step)
    ensures Waiting(Apply(s, step), id) == WaitingAfter(s, step, id)
  {
    match step
    case SubmitJob(_, _) => SubmitTokens(s, step, id);
    case ReplayJob(_, _, _, _) => ReplayTokens(s, step, id);
    case ApiEnqueue(_) => ApiQueueTokens(s, step, id);
    case ApiTimeout(_) => ApiQueueTokens(s, step, id);
    case WorkerDequeue => DequeueTokens(s, step, id);
    case WorkerBegin(_, _) => BeginTokens(s, step, id);
    case WorkerFinish(_, _, _) => FinishTokens(s, step, id);
    case WorkerEnqueue => EnqueueTokens(s, step, id);
    case WorkerTimeout => TimeoutTokens(s, step, id);
    case Restart(_, _) => RestartTokens(s, step, id);
    case _ =>
  }

  /** Every token and the running execution belong to a job. */
  ghost predicate TokensKnown(s: System) {
    && (forall id :: InFlight(s, id) ==> id in s.mem.jobs)
    && (forall id :: id in s.dropped ==> id in s.mem.jobs)
  }

  /** No lost job: a queued job has a token, unless an enqueue of it timed out since it was queued. */
  ghost predicate NoneLost(s: System) {
    forall id :: id in s.mem.jobs && s.mem.jobs[id].status == Queued ==> Waiting(s, id) > 0 || id in s.dropped
  }

  ghost predicate BootOk(s: System) {
    s.worker.Booting? ==>
      && s.pending == multiset{} && s.worker.rest != []
      && forall id :: id in s.worker.rest ==> id in s.mem.jobs && s.mem.jobs[id].status == Queued
  }

  ghost predicate TokensOk(s: System) {
    TokensKnown(s) && NoneLost(s) && BootOk(s) && |s.queue| <= s.cfg.queueSize
  }

  ghost predicate SystemOk(s: System) {
    && ConfigOk(s.cfg)
    && StateOk(s.mem)
    && s.disk == s.mem
    && TokensOk(s)
  }

  /** The job a step may rewrite, and how: only submit and restart do anything else to the maps. */
  function Target(s: System, step: Step): Option<string> {
    match step
    case ExpireJob(id, _) => Some(id)
    case CancelJob(id, _, _, _) => Some(id)
    case ReplayJob(id, _, _, _) => Some(id)
    case ReceiveEvent(ev, _) => Some(ev.jobID)
    case WorkerBegin(_, _) => if s.worker.Holding? then Some(s.worker.id) else None
    case WorkerFinish(_, _, _) => if s.worker.Executing? then Some(s.worker.id) else None
    case _ => None
  }

  function TargetChange(step: Step, j: JobRecord): Change {
    match step
    case ExpireJob(_, t) => ExpireChange(j, t)
    case CancelJob(_, tenantID, projectID, t) =>
      if InScope(j, tenantID, projectID) && !Terminal(j.status) then CancelChange(j, t) else NoChange
    case ReplayJob(_, tenantID, projectID, t) =>
      if InScope(j, tenantID, projectID) && Replayable(j.status) then ReplayChange(j, t) else NoChange
    case ReceiveEvent(ev, t) => EventChange(j, EventStatus(ev.status), ev, t)
    case WorkerBegin(t1, t2) => BeginChange(j, t1, t2)
    case WorkerFinish(outcome, t1, t2) => FinishChange(j, outcome, t1, t2)
    case _ => NoChange
  }

  predicate Plain(step: Step) {
    !step.SubmitJob? && !step.Restart?
  }

  /** The maps change by the change of the step's target, if it has one, and are saved. */
  predicate TargetChanged(s: System, step: Step, s': System) {
    var target := Target(s, step);
    && s'.mem == (if target.Some? && target.value in s.mem.jobs
                  then ChangeState(s.mem, target.value, TargetChange(step, s.mem.jobs[target.value]))
                  else s.mem)
    && (s.disk == s.mem ==> s'.disk == s'.mem)
    && s'.cfg == s.cfg
  }

  lemma MemAfter(s: System, step: Step)
    requires Enabled(s, step) && Plain(step)
    ensures TargetChanged(s, step, Apply(s, step))
  {
    if step.WorkerBegin? || step.WorkerFinish? { WorkerMem(s, step); } else { ApiMem(s, step); }
    hide TargetChanged, Apply;
  }

  lemma WorkerMem(s: System, step: Step)
    requires Enabled(s, step) && (step.WorkerBegin? || step.WorkerFinish?)
    ensures TargetChanged(s, step, Apply(s, step))
  {
    hide BeginChange, FinishChange, ChangeState, LoadState, SubmitState;
    NoChangeKeeps(s.mem);
  }

  lemma ApiMem(s: System, step: Step)
    requires Enabled(s, step) && Plain(step) && !step.WorkerBegin? && !step.WorkerFinish?
    ensures TargetChanged(s, step, Apply(s, step))
  {
    hide EventStatus, EventChange, ExpireChange, CancelChange, ReplayChange, ChangeState, LoadState, SubmitState;
    NoChangeKeeps(s.mem);
  }

  lemma NoChangeKeeps(st: State)
    ensures forall id :: ChangeState(st, id, NoChange) == st
  {}

  lemma RestartKeepsStateOk(s: System, step: Step)
    requires StateOk(s.mem) && s.disk == s.mem && Enabled(s, step) && step.Restart?
    ensures var s' := Apply(s, step); ConfigOk(s'.cfg) && StateOk(s'.mem) && s'.disk == s'.mem
  {
    var st := LoadState(s.disk, step.cfg);
    LoadExact(s.disk, step.cfg);
    if PendingIds(st) == {} { NothingPending(s.disk, step.cfg); }
    assert Apply(s, step).mem == st && Apply(s, step).cfg == step.cfg;
    assert Apply(s, step).disk == if PendingIds(st) == {} then s.disk else st;
    hide StateOk, LoadState, PendingIds, Apply;
  }

  lemma NothingPending(st: State, cfg: Config)
    requires StateOk(st) && PendingIds(LoadState(st, cfg)) == {}
    ensures LoadState(st, cfg) == st
  {
    hide StateOk, LoadState;
    var st' := LoadState(st, cfg);
    LoadExact(st, cfg);
    assert forall id :: id in st'.jobs ==> id !in PendingIds(st') && st'.jobs[id].status != Queued;
    hide PendingIds;
    assert st'.jobs == st.jobs;
  }

  lemma StepKeepsStateOk(s: System, step: Step)
    requires ConfigOk(s.cfg) && StateOk(s.mem) && s.disk == s.mem && Enabled(s, step)
    ensures var s' := Apply(s, step); ConfigOk(s'.cfg) && StateOk(s'.mem) && s'.disk == s'.mem
  {
    if step.SubmitJob? {
      SubmitKeepsOk(s.mem, s.cfg, step.sub, step.t);
      hide StateOk;
    } else if step.Restart? {
      RestartKeepsStateOk(s, step);
      hide Apply, Enabled, StateOk;
    } else {
      MemAfter(s, step);
      hide Apply, Enabled, StateOk, TargetChange;
      var target := Target(s, step);
      if target.Some? && target.value in s.mem.jobs {
        StepChangeOk(s.mem.jobs[target.value], LetterOf(s.mem, target.value), step);
        ChangeKeepsOk(s.mem, target.value, TargetChange(step, s.mem.jobs[target.value]));
      }
    }
  }

  lemma StepChangeOk(j: JobRecord, letter: Option<DeadLetter>, step: Step)
    requires RecordOk(j, letter)
    ensures ChangeOk(j, letter, TargetChange(step, j))
  {
    match step
    case ExpireJob(_, t) => ApiChangesOk(j, letter, t);
    case CancelJob(_, _, _, t) => ApiChangesOk(j, letter, t);
    case ReplayJob(_, _, _, t) => ApiChangesOk(j, letter, t);
    case ReceiveEvent(_, t) => ApiChangesOk(j, letter, t);
    case WorkerBegin(t1, t2) => WorkerChangesOk(j, letter, t1, t2);
    case WorkerFinish(_, t1, t2) => WorkerChangesOk(j, letter, t1, t2);
    case _ =>
  }

  lemma PlainKeys(s: System, step: Step)
    requires Enabled(s, step) && Plain(step)
    ensures Apply(s, step).mem.jobs.Keys == s.mem.jobs.Keys
  {
    MemAfter(s, step);
    hide Apply, Enabled, TargetChange, Target;
  }

  lemma SubmitKeys(st: State, cfg: Config, sub: Submission, t: Time)
    ensures SubmitState(st, cfg, sub, t).jobs.Keys ==
            st.jobs.Keys + if KnownKey(st, sub) then {} else {JobId(st.nextID + 1)}
  {}

  lemma MemKeys(s: System, step: Step)
    requires SystemOk(s) && Enabled(s, step)
    ensures Apply(s, step).mem.jobs.Keys == s.mem.jobs.Keys + if Creates(s, step) then {JobId(s.mem.nextID + 1)} else {}
  {
    hide StateOk, TokensOk, SubmitState;
    if step.Restart? {
    } else if step.SubmitJob? {
      SubmitKeys(s.mem, s.cfg, step.sub, step.t);
    } else {
      PlainKeys(s, step);
    }
  }

  function Changed(j: JobRecord, c: Change): JobRecord {
    if c.Change? then c.job else j
  }

  /** What one step makes of one existing job. */
  function JobStep(s: System, step: Step, id: string): JobRecord
    requires id in s.mem.jobs
  {
    var j := s.mem.jobs[id];
    if step.Restart? then (if j.status == Running then j.(status := Queued, progress := 0) else j)
    else if Target(s, step) == Some(id) then Changed(j, TargetChange(step, j))
    else j
  }

  lemma JobRestarted(s: System, step: Step, id: string)
    requires SystemOk(s) && Enabled(s, step) && step.Restart? && id in s.mem.jobs
    ensures id in Apply(s, step).mem.jobs && Apply(s, step).mem.jobs[id] == JobStep(s, step, id)
  {
    LoadExact(s.disk, step.cfg);
    assert Apply(s, step).mem == LoadState(s.disk, step.cfg);
    hide LoadState, StateOk, TokensOk, Apply;
  }

  lemma JobSubmitted(s: System, step: Step, id: string)
    requires SystemOk(s) && Enabled(s, step) && step.SubmitJob? && id in s.mem.jobs
    ensures id in Apply(s, step).mem.jobs && Apply(s, step).mem.jobs[id] == JobStep(s, step, id)
  {
    SubmitKeepsJob(s.mem, s.cfg, step.sub, step.t, id);
    hide SubmitState, StateOk, TokensOk;
  }

  lemma JobPlain(s: System, step: Step, id: string)
    requires Enabled(s, step) && Plain(step) && id in s.mem.jobs
    ensures id in Apply(s, step).mem.jobs && Apply(s, step).mem.jobs[id] == JobStep(s, step, id)
  {
    hide Apply, Enabled, TargetChange, Target;
    MemAfter(s, step);
  }

  lemma JobAfter(s: System, step: Step, id: string)
    requires SystemOk(s) && Enabled(s, step) && id in s.mem.jobs
    ensures id in Apply(s, step).mem.jobs && Apply(s, step).mem.jobs[id] == JobStep(s, step, id)
  {
    hide Apply, Enabled, SystemOk, JobStep;
    if step.Restart? {
      JobRestarted(s, step, id);
    } else if step.SubmitJob? {
      JobSubmitted(s, step, id);
    } else {
      JobPlain(s, step, id);
    }
  }

  lemma DroppedFlow(s: System, step: Step, id: string)
    requires Enabled(s, step)
    ensures id in Apply(s, step).dropped <==>
            match step
            case ReplayJob(_, _, _, _) => id in s.dropped && !(Replays(s, step) && step.id == id)
            case ApiTimeout(x) => id in s.dropped || x == id
            case WorkerFinish(_, _, _) => id in s.dropped && !(Retries(s, step) && s.worker.id == id)
            case WorkerTimeout => id in s.dropped || EnqueueTarget(s.worker) == id
            case Restart(_, _) => false
            case _ => id in s.dropped
  {
    hide SubmitState, ExpireState, CancelState, ReplayState, EventState, BeginState, FinishState;
  }

  lemma ExecutingFlow(s: System, step: Step, id: string)
    requires Enabled(s, step)
    ensures Apply(s, step).worker == Executing(id) <==>
            match step
            case WorkerBegin(_, _) => s.worker == Holding(id) && Executes(s, step)
            case WorkerFinish(_, _, _) => false
            case Restart(_, _) => false
            case _ => s.worker == Executing(id)
  {
    hide SubmitState, ExpireState, CancelState, ReplayState, EventState, BeginState, FinishState;
  }

  lemma StepKeepsKnown(s: System, step: Step, id: string)
    requires SystemOk(s) && Enabled(s, step)
    requires InFlight(Apply(s, step), id) || id in Apply(s, step).dropped
    ensures id in Apply(s, step).mem.jobs
  {
    MemKeys(s, step);
    TokenFlow(s, step, id);
    DroppedFlow(s, step, id);
    ExecutingFlow(s, step, id);
    if step.Restart? { LoadExact(s.disk, step.cfg); }
    hide Apply, StateOk;
  }

  lemma RestartQueues(s: System, step: Step, id: string)
    requires SystemOk(s) && Enabled(s, step) && step.Restart? && id in s.mem.jobs
    ensures Waiting(Apply(s, step), id) == if s.mem.jobs[id].status in {Queued, Running} then 1 else 0
  {
    LoadExact(s.disk, step.cfg);
    TokenFlow(s, step, id);
  }

  lemma WaitingHeld(s: System, id: string)
    ensures Waiting(s, id) >= 0 && (s.worker == Holding(id) ==> Waiting(s, id) > 0)
  {}

  /** Consuming a token never leaves the job queued; a restart gives each queued or running job one pending enqueue. */
  lemma StepKeepsNoneLost(s: System, step: Step, id: string)
    requires SystemOk(s) && Enabled(s, step)
    requires id in Apply(s, step).mem.jobs && Apply(s, step).mem.jobs[id].status == Queued
    ensures Waiting(Apply(s, step), id) > 0 || id in Apply(s, step).dropped
  {
    hide Apply, Enabled, SystemOk, Waiting, WaitingAfter, JobStep, Creates;
    TokenFlow(s, step, id);
    if id !in s.mem.jobs {
      NewJobHasToken(s, step, id);
    } else {
      JobAfter(s, step, id);
      if s.mem.jobs[id].status == Queued { QueuedHeld(s, id); }
      if step.Restart? { RestartQueued(s, step, id); } else { QueuedAfter(s, step, id); }
    }
  }

  lemma QueuedHeld(s: System, id: string)
    requires SystemOk(s) && id in s.mem.jobs && s.mem.jobs[id].status == Queued
    ensures Waiting(s, id) > 0 || id in s.dropped
  {
    hide StateOk, Waiting;
  }

  lemma NewJobHasToken(s: System, step: Step, id: string)
    requires SystemOk(s) && Enabled(s, step) && id !in s.mem.jobs && id in Apply(s, step).mem.jobs
    ensures WaitingAfter(s, step, id) > 0
  {
    MemKeys(s, step);
    WaitingHeld(s, id);
    hide Apply, Enabled, SystemOk, Waiting, KnownKey;
  }

  lemma RestartQueued(s: System, step: Step, id: string)
    requires SystemOk(s) && Enabled(s, step) && step.Restart? && id in s.mem.jobs && JobStep(s, step, id).status == Queued
    ensures Waiting(Apply(s, step), id) > 0
  {
    hide Apply, Enabled, SystemOk, Waiting;
    RestartQueues(s, step, id);
  }

  /** A job the step leaves queued keeps a token, gets one, or has lost its enqueue. */
  lemma QueuedAfter(s: System, step: Step, id: string)
    requires Enabled(s, step) && !step.Restart? && id in s.mem.jobs && JobStep(s, step, id).status == Queued
    requires s.mem.jobs[id].status == Queued ==> Waiting(s, id) > 0 || id in s.dropped
    ensures WaitingAfter(s, step, id) > 0 || id in Apply(s, step).dropped
  {
    WaitingHeld(s, id);
    DroppedFlow(s, step, id);
    hide Apply, Enabled, Waiting, IsExpired, EventStatus, KnownKey, JobId;
  }

  lemma StepKeepsBootOk(s: System, step: Step)
    requires SystemOk(s) && Enabled(s, step)
    ensures BootOk(Apply(s, step)) && |Apply(s, step).queue| <= Apply(s, step).cfg.queueSize
  {
    hide SubmitState, ExpireState, CancelState, ReplayState, EventState, BeginState, FinishState, StateOk, TokensKnown, NoneLost;
    if step.Restart? {
      RestartBootOk(s, step);
      hide Apply, Enabled, BootOk;
    }
  }

  lemma RestartBootOk(s: System, step: Step)
    requires Enabled(s, step) && step.Restart?
    ensures BootOk(Apply(s, step)) && Apply(s, step).queue == [] && Apply(s, step).cfg.queueSize > 0
  {
    var pending := PendingIds(LoadState(s.disk, step.cfg));
    forall id | id in step.order ensures id in pending { assert id in multiset(step.order); }
    hide LoadState;
  }

  lemma StepKeepsOk(s: System, step: Step)
    requires SystemOk(s) && Enabled(s, step)
    ensures SystemOk(Apply(s, step))
  {
    StepKeepsStateOk(s, step);
    var s' := Apply(s, step);
    forall id | InFlight(s', id) || id in s'.dropped ensures id in s'.mem.jobs { StepKeepsKnown(s, step, id); }
    forall id | id in s'.mem.jobs && s'.mem.jobs[id].status == Queued ensures Waiting(s', id) > 0 || id in s'.dropped {
      StepKeepsNoneLost(s, step, id);
    }
    StepKeepsBootOk(s, step);
  }

  lemma {:induction false} RunKeepsOk(states: seq<System>, steps: seq<Step>, k: nat)
    requires IsRun(states, steps) && SystemOk(states[0]) && k <= |steps|
    ensures SystemOk(states[k])
  {
    hide Apply, Enabled, SystemOk;
    if k > 0 {
      RunKeepsOk(states, steps, k - 1);
      RunStep(states, steps, k - 1);
      StepKeepsOk(states[k - 1], steps[k - 1]);
    }
  }

  lemma InitOk(s: System)
    requires Init(s)
    ensures SystemOk(s)
  {}

  lemma ReachableOk(s: System)
    requires Reachable(s)
    ensures SystemOk(s)
  {
    hide Next, SystemOk;
    var states, steps :| IsRun(states, steps) && Init(states[0]) && states[|steps|] == s;
    InitOk(states[0]);
    RunKeepsOk(states, steps, |steps|);
  }
}
