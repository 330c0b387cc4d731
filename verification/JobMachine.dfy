/** Every interleaving of API calls, expert events, the worker goroutine and restarts: one step per critical section. */
module JobMachine {
  import opened Jobs

  /** Where the worker goroutine is. While `Booting`, the process is still inside `loadState`, which enqueues `rest`. */
  datatype Worker =
    | Booting(rest: seq<string>)
    | Idle
    | Holding(id: string)
    | Executing(id: string)
    | Retrying(id: string)

  /**
   * `pending` are the API calls that have left their critical section and not yet enqueued. The last four
   * fields only observe: executor calls, replays and restarts so far, and the jobs an enqueue of which has
   * timed out since they were last queued.
   */
  datatype System = System(
    mem: State, disk: State, cfg: Config,
    queue: seq<string>, pending: multiset<string>, worker: Worker, clock: Time,
    execs: map<string, nat>, replays: map<string, nat>, restarts: nat, dropped: set<string>)

  datatype Step =
    | SubmitJob(sub: Submission, t: Time)
    | ExpireJob(id: string, t: Time)
    | CancelJob(id: string, tenantID: string, projectID: string, t: Time)
    | ReplayJob(id: string, tenantID: string, projectID: string, t: Time)
    | ReceiveEvent(ev: ExpertEvent, t: Time)
    | ApiEnqueue(id: string)
    | ApiTimeout(id: string)
    | WorkerDequeue
    | WorkerBegin(t1: Time, t2: Time)
    | WorkerFinish(outcome: Outcome, t1: Time, t2: Time)
    | WorkerEnqueue
    | WorkerTimeout
    | Restart(order: seq<string>, cfg: Config)

  predicate Init(s: System) {
    && s.mem == EMPTY && s.disk == EMPTY && ConfigOk(s.cfg)
    && s.queue == [] && s.pending == multiset{} && s.worker == Idle
    && s.execs == map[] && s.replays == map[] && s.restarts == 0 && s.dropped == {}
  }

  /** `order` lists each element of `ids` once: some iteration order of a Go map. */
  ghost predicate Enumerates(order: seq<string>, ids: set<string>) {
    multiset(order) == multiset(ids)
  }

  ghost predicate Enabled(s: System, step: Step) {
    match step
    case SubmitJob(_, _) => !s.worker.Booting?
    case ExpireJob(_, _) => !s.worker.Booting?
    case CancelJob(_, _, _, _) => !s.worker.Booting?
    case ReplayJob(_, _, _, _) => !s.worker.Booting?
    case ReceiveEvent(_, _) => !s.worker.Booting?
    case ApiEnqueue(id) => id in s.pending && |s.queue| < s.cfg.queueSize
    case ApiTimeout(id) => id in s.pending
    case WorkerDequeue => s.worker.Idle? && s.queue != []
    case WorkerBegin(_, _) => s.worker.Holding?
    case WorkerFinish(_, _, _) => s.worker.Executing?
    case WorkerEnqueue => Enqueuing(s.worker) && |s.queue| < s.cfg.queueSize
    case WorkerTimeout => Enqueuing(s.worker)
    case Restart(order, cfg) => ConfigOk(cfg) && Enumerates(order, PendingIds(LoadState(s.disk, cfg)))
  }

  predicate Enqueuing(w: Worker) {
    w.Retrying? || (w.Booting? && w.rest != [])
  }

  function EnqueueTarget(w: Worker): string
    requires Enqueuing(w)
  {
    if w.Retrying? then w.id else w.rest[0]
  }

  function AfterEnqueue(w: Worker): Worker
    requires Enqueuing(w)
  {
    if w.Retrying? then Idle else BootOf(w.rest[1..])
  }

  function BootOf(rest: seq<string>): Worker {
    if rest == [] then Idle else Booting(rest)
  }

  function Count(m: map<string, nat>, id: string): nat {
    if id in m then m[id] else 0
  }

  function Bump(m: map<string, nat>, id: string): map<string, nat> {
    m[id := Count(m, id) + 1]
  }

  function Later(clock: Time, t: Time): Time {
    if clock < t then t else clock
  }

  /** A critical section left `st` in memory; one that changed the maps has also saved them. */
  function Commit(s: System, st: State, t: Time): System {
    s.(mem := st, disk := if st == s.mem then s.disk else st, clock := Later(s.clock, t))
  }

  function Apply(s: System, step: Step): System
  {
    match step
    case SubmitJob(sub, t) =>
      var s1 := Commit(s, SubmitState(s.mem, s.cfg, sub, t), t);
      if KnownKey(s.mem, sub) then s1
      else s1.(pending := s.pending + multiset{JobId(s.mem.nextID + 1)})
    case ExpireJob(id, t) =>
      Commit(s, ExpireState(s.mem, id, t), t)
    case CancelJob(id, tenantID, projectID, t) =>
      Commit(s, CancelState(s.mem, id, tenantID, projectID, t), t)
    case ReplayJob(id, tenantID, projectID, t) =>
      var s1 := Commit(s, ReplayState(s.mem, id, tenantID, projectID, t), t);
      if ReplayAnswer(s.mem, id, tenantID, projectID) != Done then s1
      else s1.(pending := s.pending + multiset{id}, replays := Bump(s.replays, id), dropped := s.dropped - {id})
    case ReceiveEvent(ev, t) =>
      Commit(s, EventState(s.mem, ev, t), t)
    case ApiEnqueue(id) =>
      s.(pending := s.pending - multiset{id}, queue := s.queue + [id])
    case ApiTimeout(id) =>
      s.(pending := s.pending - multiset{id}, dropped := s.dropped + {id})
    case WorkerDequeue =>
      if s.queue == [] then s else s.(queue := s.queue[1..], worker := Holding(s.queue[0]))
    case WorkerBegin(t1, t2) =>
      if !s.worker.Holding? then s
      else
        var id := s.worker.id;
        var s1 := Commit(s, BeginState(s.mem, id, t1, t2), Later(t1, t2));
        if BeginExecutes(s.mem, id, t1)
        then s1.(worker := Executing(id), execs := Bump(s.execs, id))
        else s1.(worker := Idle)
    case WorkerFinish(outcome, t1, t2) =>
      if !s.worker.Executing? then s
      else
        var id := s.worker.id;
        var s1 := Commit(s, FinishState(s.mem, id, outcome, t1, t2), Later(t1, t2));
        if FinishRetries(s.mem, id, outcome, t1)
        then s1.(worker := Retrying(id), dropped := s.dropped - {id})
        else s1.(worker := Idle)
    case WorkerEnqueue =>
      if !Enqueuing(s.worker) then s
      else s.(queue := s.queue + [EnqueueTarget(s.worker)], worker := AfterEnqueue(s.worker))
    case WorkerTimeout =>
      if !Enqueuing(s.worker) then s
      else s.(dropped := s.dropped + {EnqueueTarget(s.worker)}, worker := AfterEnqueue(s.worker))
    case Restart(order, cfg) =>
      var st := LoadState(s.disk, cfg);
      System(
        st, if PendingIds(st) == {} then s.disk else st, cfg,
        [], multiset{}, BootOf(order), s.clock,
        s.execs, s.replays, s.restarts + 1, {})
  }

  predicate Creates(s: System, step: Step) {
    step.SubmitJob? && !KnownKey(s.mem, step.sub)
  }

  predicate Replays(s: System, step: Step) {
    step.ReplayJob? && ReplayAnswer(s.mem, step.id, step.tenantID, step.projectID) == Done
  }

  predicate Executes(s: System, step: Step) {
    step.WorkerBegin? && s.worker.Holding? && BeginExecutes(s.mem, s.worker.id, step.t1)
  }

  predicate Retries(s: System, step: Step) {
    step.WorkerFinish? && s.worker.Executing? && FinishRetries(s.mem, s.worker.id, step.outcome, step.t1)
  }

  // ---- runs -----------------------------------------------------------------------

  ghost predicate Next(s: System, step: Step, s': System) {
    Enabled(s, step) && s' == Apply(s, step)
  }

  /** `states` are the states a run goes through, `steps` what happened between them. */
  ghost predicate IsRun(states: seq<System>, steps: seq<Step>) {
    && |states| == |steps| + 1
    && forall i {:trigger steps[i]} :: 0 <= i < |steps| ==> Next(states[i], steps[i], states[i + 1])
  }

  ghost predicate Reachable(s: System) {
    exists states, steps :: IsRun(states, steps) && Init(states[0]) && states[|steps|] == s
  }

  /** The clock reads of this step are not before any earlier one. `ExpireJob` reads its clock before locking. */
  predicate Timely(s: System, step: Step) {
    match step
    case SubmitJob(_, t) => s.clock <= t
    case CancelJob(_, _, _, t) => s.clock <= t
    case ReplayJob(_, _, _, t) => s.clock <= t
    case ReceiveEvent(_, t) => s.clock <= t
    case WorkerBegin(t1, t2) => s.clock <= t1 <= t2
    case WorkerFinish(_, t1, t2) => s.clock <= t1 <= t2
    case _ => true
  }

  ghost predicate TimelyRun(states: seq<System>, steps: seq<Step>)
    requires IsRun(states, steps)
  {
    forall i {:trigger steps[i]} :: 0 <= i < |steps| ==> Timely(states[i], steps[i])
  }

  lemma RunStep(states: seq<System>, steps: seq<Step>, i: nat)
    requires IsRun(states, steps) && i < |steps|
    ensures Enabled(states[i], steps[i]) && states[i + 1] == Apply(states[i], steps[i])
  {}

  /** Runs compose. */
  lemma RunAppend(a: seq<System>, a': seq<Step>, b: seq<System>, b': seq<Step>)
    requires IsRun(a, a') && IsRun(b, b') && a[|a'|] == b[0]
    ensures IsRun(a + b[1..], a' + b')
    ensures (a + b[1..])[0] == a[0] && (a + b[1..])[|a' + b'|] == b[|b'|]
  {
    hide Next;
    var s, t := a + b[1..], a' + b';
    forall i | 0 <= i < |t| ensures Next(s[i], t[i], s[i + 1]) {
      if i < |a'| { assert t[i] == a'[i]; } else { assert t[i] == b'[i - |a'|]; }
    }
  }
}
