/** With a synchronous executor and nobody else acting, the worker empties the queue and finishes every job. */
module JobDrain {
  import opened Text
  import opened Jobs
  import opened JobMachine
  import opened JobInvariants
  import opened JobTheorems
  import Sums

  // ---- runs of a synchronous executor ------------------------------------------------------

  /** The executor never answers "accepted, result follows". */
  ghost predicate Synchronous(steps: seq<Step>) {
    forall i {:trigger steps[i]} :: 0 <= i < |steps| && steps[i].WorkerFinish? ==> !steps[i].outcome.AsyncAccepted?
  }

  /** Only the job being executed is running. */
  ghost predicate RunningExecutes(s: System) {
    forall id :: id in s.mem.jobs && s.mem.jobs[id].status == Running ==> s.worker == Executing(id)
  }

  /** Only beginning a job makes it running, and finishing it synchronously ends that. */
  lemma RunningChange(j: JobRecord, step: Step)
    requires step.WorkerFinish? ==> !step.outcome.AsyncAccepted?
    ensures Changed(j, TargetChange(step, j)).status == Running ==>
              if step.WorkerBegin? then j.status != Canceled && !IsExpired(j, step.t1)
              else j.status == Running && !step.WorkerFinish?
  {
    hide EventStatus, IsExpired;
  }

  lemma RunningStep(s: System, step: Step, id: string)
    requires SystemOk(s) && Enabled(s, step) && RunningExecutes(s)
    requires step.WorkerFinish? ==> !step.outcome.AsyncAccepted?
    requires id in Apply(s, step).mem.jobs && Apply(s, step).mem.jobs[id].status == Running
    ensures Apply(s, step).worker == Executing(id)
  {
    hide Apply, Enabled, SystemOk, JobStep, RunningExecutes;
    if id in s.mem.jobs {
      JobAfter(s, step, id);
      RunningJob(s, step, id);
    } else {
      NewJobIsQueued(s, step, id);
    }
  }

  lemma RunningJob(s: System, step: Step, id: string)
    requires Enabled(s, step) && RunningExecutes(s) && id in s.mem.jobs && JobStep(s, step, id).status == Running
    requires step.WorkerFinish? ==> !step.outcome.AsyncAccepted?
    ensures Apply(s, step).worker == Executing(id)
  {
    assert (step.WorkerBegin? ==> s.worker.Holding?) && (step.WorkerFinish? ==> s.worker.Executing?);
    hide Apply, Enabled, TargetChange, IsExpired;
    ExecutingFlow(s, step, id);
    RunningChange(s.mem.jobs[id], step);
  }

  lemma NewJobIsQueued(s: System, step: Step, id: string)
    requires SystemOk(s) && Enabled(s, step) && id !in s.mem.jobs && id in Apply(s, step).mem.jobs
    ensures Apply(s, step).mem.jobs[id].status == Queued
  {
    MemKeys(s, step);
  }

  lemma {:induction false} RunKeepsRunning(states: seq<System>, steps: seq<Step>, k: nat)
    requires IsRun(states, steps) && Init(states[0]) && Synchronous(steps) && k <= |steps|
    ensures SystemOk(states[k]) && RunningExecutes(states[k])
  {
    hide Apply, Enabled, SystemOk, RunningExecutes, Init;
    if k > 0 {
      RunKeepsRunning(states, steps, k - 1);
      RunStep(states, steps, k - 1);
      StepKeepsOk(states[k - 1], steps[k - 1]);
      RunningAfter(states[k - 1], steps[k - 1]);
    } else {
      InitOk(states[0]);
      InitRunning(states[0]);
    }
  }

  lemma InitRunning(s: System)
    requires Init(s)
    ensures RunningExecutes(s)
  {}

  lemma RunningAfter(s: System, step: Step)
    requires SystemOk(s) && Enabled(s, step) && RunningExecutes(s)
    requires step.WorkerFinish? ==> !step.outcome.AsyncAccepted?
    ensures RunningExecutes(Apply(s, step))
  {
    var s' := Apply(s, step);
    forall id | id in s'.mem.jobs && s'.mem.jobs[id].status == Running ensures s'.worker == Executing(id) {
      RunningStep(s, step, id);
    }
    hide Apply;
  }

  // ---- one item of the worker loop ---------------------------------------------------------------

  /** What the clock and the executor answer while the worker handles one item. */
  datatype Item = Item(t1: Time, t2: Time, outcome: Outcome, t3: Time, t4: Time)

  /** The worker is between items, every other goroutine is at rest, and no token was lost. */
  ghost predicate Ready(s: System) {
    SystemOk(s) && RunningExecutes(s) && s.worker == Idle && s.pending == multiset{} && s.dropped == {}
  }

  function Begun(s: System, it: Item): System {
    Apply(Apply(s, WorkerDequeue), WorkerBegin(it.t1, it.t2))
  }

  function Finished(s: System, it: Item): System {
    if Begun(s, it).worker.Executing? then Apply(Begun(s, it), WorkerFinish(it.outcome, it.t3, it.t4)) else Begun(s, it)
  }

  /** Dequeue, begin, execute, finish, and enqueue again when it is to be retried. */
  function Handle(s: System, it: Item): System {
    if Finished(s, it).worker.Retrying? then Apply(Finished(s, it), WorkerEnqueue) else Finished(s, it)
  }

  function AttemptsLeft(st: State): string -> int {
    id => if id in st.jobs then st.jobs[id].maxAttempts - st.jobs[id].attempt else 0
  }

  /** Tokens plus attempts left over all jobs. */
  ghost function WorkOf(st: State, ch: seq<string>): int {
    |ch| + Sums.Sum(st.jobs.Keys, AttemptsLeft(st))
  }

  ghost function Work(s: System): int {
    WorkOf(s.mem, s.queue)
  }

  /** Only the attempts of `id` may have changed, by `delta`. */
  ghost predicate AttemptsMove(s: System, s': System, id: string, delta: int) {
    && s'.mem.jobs.Keys == s.mem.jobs.Keys
    && id in s.mem.jobs
    && (forall x :: x in s.mem.jobs && x != id ==> AttemptsLeft(s'.mem)(x) == AttemptsLeft(s.mem)(x))
    && AttemptsLeft(s'.mem)(id) == AttemptsLeft(s.mem)(id) + delta
  }

  lemma WorkMove(s: System, s': System, id: string, delta: int)
    requires AttemptsMove(s, s', id, delta)
    ensures Work(s') == Work(s) + |s'.queue| - |s.queue| + delta
  {
    Sums.SumChange(s.mem.jobs.Keys, AttemptsLeft(s.mem), AttemptsLeft(s'.mem), id);
  }

  predicate WorkerStep(s: System, step: Step, id: string) {
    || step.WorkerDequeue? || step.WorkerEnqueue?
    || (step.WorkerBegin? && s.worker == Holding(id))
    || (step.WorkerFinish? && s.worker == Executing(id))
  }

  lemma JobAttempts(s: System, step: Step, id: string, x: string)
    requires SystemOk(s) && Enabled(s, step) && x in s.mem.jobs && WorkerStep(s, step, id)
    ensures x in Apply(s, step).mem.jobs
    ensures AttemptsLeft(Apply(s, step).mem)(x) == AttemptsLeft(s.mem)(x) + if Retries(s, step) && x == id then -1 else 0
  {
    hide Apply, Enabled, SystemOk, EventStatus, IsExpired;
    JobAfter(s, step, x);
  }

  lemma StepAttempts(s: System, step: Step, id: string)
    requires SystemOk(s) && Enabled(s, step) && id in s.mem.jobs && WorkerStep(s, step, id)
    ensures AttemptsMove(s, Apply(s, step), id, if Retries(s, step) then -1 else 0)
  {
    hide Apply, Enabled, SystemOk, Retries, AttemptsLeft;
    MemKeys(s, step);
    NothingCreated(s, step, id);
    forall x | x in s.mem.jobs
      ensures AttemptsLeft(Apply(s, step).mem)(x) == AttemptsLeft(s.mem)(x) + if Retries(s, step) && x == id then -1 else 0
    {
      JobAttempts(s, step, id, x);
    }
    hide WorkerStep;
  }

  lemma NothingCreated(s: System, step: Step, id: string)
    requires WorkerStep(s, step, id)
    ensures !Creates(s, step)
  {}

  lemma BeginFlow(s: System, it: Item)
    requires SystemOk(s) && s.worker == Idle && s.queue != []
    ensures Enabled(s, WorkerDequeue) && Enabled(Apply(s, WorkerDequeue), WorkerBegin(it.t1, it.t2))
    ensures Apply(s, WorkerDequeue).worker == Holding(s.queue[0]) && s.queue[0] in s.mem.jobs
    ensures Apply(s, WorkerDequeue).mem == s.mem && Apply(s, WorkerDequeue).queue == s.queue[1..]
    ensures var b := Begun(s, it);
            && b.queue == s.queue[1..] && b.pending == s.pending && b.dropped == s.dropped && b.cfg == s.cfg
            && (b.worker == Executing(s.queue[0]) || b.worker == Idle)
  {
    hide BeginState, StateOk;
    assert s.queue[0] in multiset(s.queue);
    assert InFlight(s, s.queue[0]);
  }

  lemma FinishFlow(s: System, o: Outcome, t1: Time, t2: Time)
    requires s.worker.Executing?
    ensures var step := WorkerFinish(o, t1, t2); var f := Apply(s, step);
            && Enabled(s, step)
            && f.queue == s.queue && f.pending == s.pending && f.cfg == s.cfg
            && f.worker == (if Retries(s, step) then Retrying(s.worker.id) else Idle)
            && (s.dropped == {} ==> f.dropped == {})
  {
    hide FinishState;
  }

  lemma RetryFlow(s: System)
    requires s.worker.Retrying? && |s.queue| < s.cfg.queueSize
    ensures var e := Apply(s, WorkerEnqueue);
            && Enabled(s, WorkerEnqueue)
            && e.queue == s.queue + [s.worker.id] && e.pending == s.pending && e.dropped == s.dropped && e.worker == Idle
  {}

  lemma BegunReady(s: System, it: Item)
    requires Ready(s) && s.queue != []
    ensures SystemOk(Begun(s, it)) && RunningExecutes(Begun(s, it))
    ensures AttemptsMove(s, Begun(s, it), s.queue[0], 0)
  {
    var d, begin := Apply(s, WorkerDequeue), WorkerBegin(it.t1, it.t2);
    hide Apply, Enabled, SystemOk, RunningExecutes, Retries;
    BeginFlow(s, it);
    StepKeepsOk(s, WorkerDequeue);
    RunningAfter(s, WorkerDequeue);
    StepKeepsOk(d, begin);
    RunningAfter(d, begin);
    OnlyFinishRetries(d, begin);
    StepAttempts(d, begin, s.queue[0]);
  }

  lemma OnlyFinishRetries(s: System, step: Step)
    requires !step.WorkerFinish?
    ensures !Retries(s, step)
  {}

  lemma QueueFits(s: System)
    requires SystemOk(s)
    ensures |s.queue| <= s.cfg.queueSize
  {}

  lemma BegunWork(s: System, it: Item)
    requires Ready(s) && s.queue != []
    ensures Work(Begun(s, it)) == Work(s) - 1 && s.queue[0] in Begun(s, it).mem.jobs
    ensures |Begun(s, it).queue| < Begun(s, it).cfg.queueSize
  {
    QueueFits(s);
    hide Apply, Enabled, SystemOk, RunningExecutes, Retries;
    BeginFlow(s, it);
    BegunReady(s, it);
    WorkMove(s, Begun(s, it), s.queue[0], 0);
  }

  lemma FinishedWork(s: System, it: Item)
    requires SystemOk(s) && RunningExecutes(s) && s.worker.Executing? && s.worker.id in s.mem.jobs
    requires !it.outcome.AsyncAccepted? && s.pending == multiset{} && s.dropped == {}
    ensures var finish := WorkerFinish(it.outcome, it.t3, it.t4);
            var f := Apply(s, finish);
            && Enabled(s, finish) && SystemOk(f) && RunningExecutes(f)
            && f.pending == multiset{} && f.dropped == {} && f.queue == s.queue && f.cfg == s.cfg
            && (f.worker == Idle || f.worker == Retrying(s.worker.id)) && s.worker.id in f.mem.jobs
            && Work(f) == Work(s) + if f.worker.Retrying? then -1 else 0
  {
    hide Apply, Enabled, SystemOk, RunningExecutes, Retries, Work;
    var finish := WorkerFinish(it.outcome, it.t3, it.t4);
    FinishFlow(s, it.outcome, it.t3, it.t4);
    StepKeepsOk(s, finish);
    RunningAfter(s, finish);
    StepAttempts(s, finish, s.worker.id);
    WorkMove(s, Apply(s, finish), s.worker.id, if Retries(s, finish) then -1 else 0);
  }

  lemma RetriedWork(s: System)
    requires SystemOk(s) && RunningExecutes(s) && s.worker.Retrying? && s.worker.id in s.mem.jobs
    requires s.pending == multiset{} && s.dropped == {} && |s.queue| < s.cfg.queueSize
    ensures Enabled(s, WorkerEnqueue) && Ready(Apply(s, WorkerEnqueue)) && Work(Apply(s, WorkerEnqueue)) == Work(s) + 1
  {
    hide Apply, Enabled, SystemOk, RunningExecutes, Retries, Work;
    RetryFlow(s);
    StepKeepsOk(s, WorkerEnqueue);
    RunningAfter(s, WorkerEnqueue);
    OnlyFinishRetries(s, WorkerEnqueue);
    StepAttempts(s, WorkerEnqueue, s.worker.id);
    WorkMove(s, Apply(s, WorkerEnqueue), s.worker.id, 0);
  }

  /** Steps of the worker goroutine, none of them a timeout, with a synchronous executor. */
  ghost predicate ByWorker(steps: seq<Step>) {
    forall i :: 0 <= i < |steps| ==> OfWorker(steps[i])
  }

  predicate OfWorker(step: Step) {
    || step.WorkerDequeue? || step.WorkerBegin? || step.WorkerEnqueue?
    || (step.WorkerFinish? && !step.outcome.AsyncAccepted?)
  }

  /** The worker alone gets from one state to the other. */
  ghost predicate Runs(s: System, s': System) {
    exists states, steps :: IsRun(states, steps) && ByWorker(steps) && states[0] == s && states[|steps|] == s'
  }

  lemma RunsNowhere(s: System)
    ensures Runs(s, s)
  {
    var none: seq<Step> := [];
    assert IsRun([s], none) && ByWorker(none) && [s][|none|] == s;
  }

  lemma RunsThen(s: System, m: System, e: System)
    requires Runs(s, m) && Runs(m, e)
    ensures Runs(s, e)
  {
    hide Next, OfWorker;
    var a, a' :| IsRun(a, a') && ByWorker(a') && a[0] == s && a[|a'|] == m;
    var b, b' :| IsRun(b, b') && ByWorker(b') && b[0] == m && b[|b'|] == e;
    RunAppend(a, a', b, b');
    assert ByWorker(a' + b');
    assert IsRun(a + b[1..], a' + b');
  }

  lemma RunThen(s: System, s': System, step: Step)
    requires Runs(s, s') && Enabled(s', step) && OfWorker(step)
    ensures Runs(s, Apply(s', step))
  {
    hide Apply, Enabled;
    var states, steps := [s', Apply(s', step)], [step];
    assert IsRun(states, steps) && ByWorker(steps) && states[|steps|] == Apply(s', step);
    RunsThen(s, s', Apply(s', step));
  }

  /**
   * Handling one item is a run of enabled steps, so the retry enqueue finds room and does not block; it
   * leaves the worker ready again and lowers the work by exactly one.
   */
  lemma HandleOne(s: System, it: Item)
    requires Ready(s) && s.queue != [] && !it.outcome.AsyncAccepted?
    ensures Ready(Handle(s, it)) && Work(Handle(s, it)) == Work(s) - 1
    ensures Finished(s, it).worker.Retrying? ==> Enabled(Finished(s, it), WorkerEnqueue)
    ensures Runs(s, Handle(s, it))
  {
    hide Apply, Enabled, SystemOk, RunningExecutes, Work, Runs;
    BeginFlow(s, it);
    BegunReady(s, it);
    BegunWork(s, it);
    RunsNowhere(s);
    RunThen(s, s, WorkerDequeue);
    RunThen(s, Apply(s, WorkerDequeue), WorkerBegin(it.t1, it.t2));
    if Begun(s, it).worker.Executing? {
      FinishedWork(Begun(s, it), it);
      RunThen(s, Begun(s, it), WorkerFinish(it.outcome, it.t3, it.t4));
      if Finished(s, it).worker.Retrying? {
        RetriedWork(Finished(s, it));
        RunThen(s, Finished(s, it), WorkerEnqueue);
      }
    }
  }

  // ---- the whole loop -------------------------------------------------------------------------------

  /** The state after the worker has handled up to `n` items from the `k`-th on, stopping when the queue is empty. */
  function Drain(s: System, items: nat -> Item, k: nat, n: nat): System
    decreases n
  {
    if n == 0 || s.queue == [] then s else Drain(Handle(s, items(k)), items, k + 1, n - 1)
  }

  ghost predicate AllTerminal(s: System) {
    forall id :: id in s.mem.jobs ==> Terminal(s.mem.jobs[id].status)
  }

  lemma ReadyEmpty(s: System)
    requires Ready(s) && s.queue == []
    ensures AllTerminal(s)
  {
    forall id | id in s.mem.jobs ensures Terminal(s.mem.jobs[id].status) {
      assert Waiting(s, id) == 0;
    }
  }

  lemma WorkCoversQueue(s: System)
    requires SystemOk(s)
    ensures |s.queue| <= Work(s)
  {
    forall id | id in s.mem.jobs ensures AttemptsLeft(s.mem)(id) >= 0 { AttemptsOk(s, id); }
    Sums.SumNonNegative(s.mem.jobs.Keys, AttemptsLeft(s.mem));
  }

  lemma {:induction false} DrainFrom(s: System, items: nat -> Item, k: nat, n: nat)
    requires Ready(s) && Work(s) <= n && forall i: nat :: !items(i).outcome.AsyncAccepted?
    ensures Ready(Drain(s, items, k, n)) && Drain(s, items, k, n).queue == []
    ensures Runs(s, Drain(s, items, k, n))
    decreases n
  {
    hide Apply, Enabled, SystemOk, RunningExecutes, Handle, Work, Finished, Runs;
    WorkCoversQueue(s);
    if s.queue != [] {
      HandleOne(s, items(k));
      DrainFrom(Handle(s, items(k)), items, k + 1, n - 1);
      RunsThen(s, Handle(s, items(k)), Drain(s, items, k, n));
    } else {
      RunsNowhere(s);
    }
  }

  // ---- from the middle of an item ---------------------------------------------------------------------

  /** The job in hand will not be enqueued again whatever the executor answers. */
  predicate NoRetry(s: System, id: string) {
    id in s.mem.jobs ==> s.mem.jobs[id].status == Canceled || s.mem.jobs[id].attempt == s.mem.jobs[id].maxAttempts
  }

  /** Whatever the worker may still have to enqueue by itself before it is idle fits into the channel. */
  predicate Room(s: System) {
    match s.worker
    case Idle => true
    case Booting(rest) => |s.queue| + |rest| <= s.cfg.queueSize
    case Retrying(_) => |s.queue| < s.cfg.queueSize
    case Holding(id) => |s.queue| < s.cfg.queueSize || NoRetry(s, id)
    case Executing(id) => |s.queue| < s.cfg.queueSize || NoRetry(s, id)
  }

  lemma DequeueRoom(s: System)
    requires SystemOk(s) && Enabled(s, WorkerDequeue)
    ensures Room(Apply(s, WorkerDequeue))
  {
    hide StateOk, TokensKnown, NoneLost, BootOk, NoRetry;
  }

  lemma BeginWorker(s: System, t1: Time, t2: Time)
    requires s.worker.Holding?
    ensures var b := Apply(s, WorkerBegin(t1, t2));
            && b.queue == s.queue && b.cfg == s.cfg && b.pending == s.pending && b.dropped == s.dropped
            && b.worker == if BeginExecutes(s.mem, s.worker.id, t1) then Executing(s.worker.id) else Idle
  {
    hide BeginState, BeginExecutes;
  }

  lemma BeginRoom(s: System, t1: Time, t2: Time)
    requires SystemOk(s) && s.worker.Holding? && Room(s)
    ensures Enabled(s, WorkerBegin(t1, t2)) && Room(Apply(s, WorkerBegin(t1, t2)))
  {
    hide Apply, SystemOk, IsExpired;
    BeginWorker(s, t1, t2);
    if s.worker.id in s.mem.jobs { JobAfter(s, WorkerBegin(t1, t2), s.worker.id); }
  }

  lemma FinishRoom(s: System, o: Outcome, t1: Time, t2: Time)
    requires SystemOk(s) && s.worker.Executing? && Room(s)
    ensures Room(Apply(s, WorkerFinish(o, t1, t2)))
  {
    hide Apply, SystemOk, IsExpired;
    FinishFlow(s, o, t1, t2);
  }

  lemma EnqueueRoom(s: System)
    requires Room(s) && Enabled(s, WorkerEnqueue)
    ensures Room(Apply(s, WorkerEnqueue))
  {
    hide NoRetry;
  }

  lemma RoomStep(s: System, step: Step)
    requires SystemOk(s) && Room(s) && Enabled(s, step) && OfWorker(step)
    ensures Room(Apply(s, step))
  {
    hide Apply, SystemOk, Room;
    match step
    case WorkerDequeue => DequeueRoom(s);
    case WorkerBegin(t1, t2) => BeginRoom(s, t1, t2);
    case WorkerFinish(o, t1, t2) => FinishRoom(s, o, t1, t2);
    case WorkerEnqueue => EnqueueRoom(s);
    case _ =>
  }

  /** Nobody but the worker has anything to do. */
  ghost predicate Calm(s: System) {
    SystemOk(s) && RunningExecutes(s) && s.pending == multiset{} && s.dropped == {} && Room(s)
  }

  function Boot(s: System): System
    decreases if s.worker.Booting? then |s.worker.rest| else 0
  {
    if s.worker.Booting? && s.worker.rest != [] then Boot(Apply(s, WorkerEnqueue)) else s
  }

  /** The rest of the item, or of the restart, the worker is in the middle of. */
  function Settle(s: System, it: Item): System {
    var b := Boot(s);
    var h := if b.worker.Holding? then Apply(b, WorkerBegin(it.t1, it.t2)) else b;
    var f := if h.worker.Executing? then Apply(h, WorkerFinish(it.outcome, it.t3, it.t4)) else h;
    if f.worker.Retrying? then Apply(f, WorkerEnqueue) else f
  }

  lemma BootFlow(s: System)
    requires SystemOk(s) && Room(s) && s.worker.Booting?
    ensures s.worker.rest != [] && Enabled(s, WorkerEnqueue)
    ensures var e := Apply(s, WorkerEnqueue);
            e.pending == s.pending && e.dropped == s.dropped && e.worker == BootOf(s.worker.rest[1..])
  {
    hide StateOk, TokensKnown, NoneLost;
  }

  lemma {:induction false} BootStage(s: System)
    requires Calm(s)
    ensures Calm(Boot(s)) && !Boot(s).worker.Booting? && Runs(s, Boot(s))
    decreases if s.worker.Booting? then |s.worker.rest| else 0
  {
    hide Apply, Enabled, SystemOk, RunningExecutes, Runs, Room;
    RunsNowhere(s);
    if s.worker.Booting? {
      var e := Apply(s, WorkerEnqueue);
      BootFlow(s);
      RoomStep(s, WorkerEnqueue);
      StepKeepsOk(s, WorkerEnqueue);
      RunningAfter(s, WorkerEnqueue);
      BootStage(e);
      RunThen(s, s, WorkerEnqueue);
      RunsThen(s, e, Boot(s));
    }
  }

  lemma BeginStage(s: System, t1: Time, t2: Time)
    requires Calm(s) && s.worker.Holding?
    ensures var b := Apply(s, WorkerBegin(t1, t2));
            Calm(b) && Runs(s, b) && (b.worker.Executing? || b.worker.Idle?)
  {
    hide Apply, Enabled, SystemOk, RunningExecutes, Runs, Room;
    BeginWorker(s, t1, t2);
    BeginRoom(s, t1, t2);
    StepKeepsOk(s, WorkerBegin(t1, t2));
    RunningAfter(s, WorkerBegin(t1, t2));
    RunsNowhere(s);
    RunThen(s, s, WorkerBegin(t1, t2));
  }

  lemma InHandKnown(s: System)
    requires SystemOk(s) && (s.worker.Executing? || s.worker.Retrying?)
    ensures s.worker.id in s.mem.jobs
  {
    assert InFlight(s, s.worker.id);
  }

  lemma FinishStage(s: System, it: Item)
    requires Calm(s) && s.worker.Executing? && !it.outcome.AsyncAccepted?
    ensures var f := Apply(s, WorkerFinish(it.outcome, it.t3, it.t4));
            Calm(f) && Runs(s, f) && (f.worker.Retrying? || f.worker.Idle?)
  {
    hide Apply, Enabled, SystemOk, RunningExecutes, Runs, Work;
    InHandKnown(s);
    FinishRoom(s, it.outcome, it.t3, it.t4);
    FinishedWork(s, it);
    RunsNowhere(s);
    RunThen(s, s, WorkerFinish(it.outcome, it.t3, it.t4));
  }

  lemma RetryStage(s: System)
    requires Calm(s) && s.worker.Retrying?
    ensures Ready(Apply(s, WorkerEnqueue)) && Runs(s, Apply(s, WorkerEnqueue))
  {
    hide Apply, Enabled, SystemOk, RunningExecutes, Runs, Work;
    InHandKnown(s);
    RetriedWork(s);
    RunsNowhere(s);
    RunThen(s, s, WorkerEnqueue);
  }

  /** With room for what it may enqueue itself the worker gets ready from wherever it is, by itself and without a timeout. */
  lemma SettleReady(s: System, it: Item)
    requires Calm(s) && !it.outcome.AsyncAccepted?
    ensures Ready(Settle(s, it)) && Runs(s, Settle(s, it))
  {
    hide Apply, Enabled, SystemOk, RunningExecutes, Runs, Room, Boot;
    var b := Boot(s);
    BootStage(s);
    var h := if b.worker.Holding? then Apply(b, WorkerBegin(it.t1, it.t2)) else b;
    if b.worker.Holding? {
      BeginStage(b, it.t1, it.t2);
      RunsThen(s, b, h);
    }
    var f := if h.worker.Executing? then Apply(h, WorkerFinish(it.outcome, it.t3, it.t4)) else h;
    if h.worker.Executing? {
      FinishStage(h, it);
      RunsThen(s, h, f);
    }
    if f.worker.Retrying? {
      RetryStage(f);
      RunsThen(s, f, Settle(s, it));
    }
  }

  /**
   * From any state of a synchronous-executor run with no API enqueue pending, nothing dropped, and room for what
   * the worker is about to enqueue itself, the worker alone and without a timeout finishes what it is in the middle
   * of, and then at most `Work` more items, whatever the executor and the clock answer: the queue ends empty and
   * every job terminal.
   */
  lemma DrainTerminates(states: seq<System>, steps: seq<Step>, first: Item, items: nat -> Item)
    requires IsRun(states, steps) && Init(states[0]) && Synchronous(steps)
    requires var s := states[|steps|]; s.pending == multiset{} && s.dropped == {} && Room(s)
    requires !first.outcome.AsyncAccepted? && forall i: nat :: !items(i).outcome.AsyncAccepted?
    ensures var s, r := states[|steps|], Settle(states[|steps|], first);
            && Work(r) >= 0
            && var e := Drain(r, items, 0, Work(r));
               e.queue == [] && AllTerminal(e) && Runs(s, e)
  {
    hide Apply, Enabled, SystemOk, RunningExecutes, Drain, AllTerminal, Work, Settle, Runs;
    var s := states[|steps|];
    RunKeepsRunning(states, steps, |steps|);
    SettleReady(s, first);
    var r := Settle(s, first);
    WorkCoversQueue(r);
    DrainFrom(r, items, 0, Work(r));
    ReadyEmpty(Drain(r, items, 0, Work(r)));
    RunsThen(s, r, Drain(r, items, 0, Work(r)));
  }

  // ---- without room ---------------------------------------------------------------------------------------

  /** The worker has to enqueue into a full channel, from which nobody else takes. */
  predicate Jammed(s: System) {
    Enqueuing(s.worker) && |s.queue| >= s.cfg.queueSize
  }

  /** All a jammed worker can do is let its enqueue time out, which costs the job that token. */
  lemma JammedLoses(s: System, step: Step)
    requires Jammed(s)
    ensures OfWorker(step) ==> !Enabled(s, step)
    ensures var id := EnqueueTarget(s.worker);
            && Enabled(s, WorkerTimeout) && id in Apply(s, WorkerTimeout).dropped
            && Waiting(Apply(s, WorkerTimeout), id) == Waiting(s, id) - 1
  {
    var id := EnqueueTarget(s.worker);
    TokenFlow(s, WorkerTimeout, id);
    DroppedFlow(s, WorkerTimeout, id);
    hide Waiting, Apply;
  }

  lemma {:induction false} RoomStays(states: seq<System>, steps: seq<Step>, k: nat)
    requires IsRun(states, steps) && SystemOk(states[0]) && Room(states[0]) && ByWorker(steps) && k <= |steps|
    ensures Room(states[k])
  {
    hide Apply, Enabled, SystemOk, Room, OfWorker;
    if k > 0 {
      RoomStays(states, steps, k - 1);
      RunKeepsOk(states, steps, k - 1);
      RunStep(states, steps, k - 1);
      RoomStep(states[k - 1], steps[k - 1]);
    }
  }

  lemma {:induction false} BootJams(s: System) returns (b: System)
    requires SystemOk(s) && s.worker.Booting? && !Room(s)
    ensures Runs(s, b) && Jammed(b)
    decreases if s.worker.Booting? then |s.worker.rest| else 0
  {
    hide SystemOk, Apply, Runs;
    RunsNowhere(s);
    BootNonempty(s);
    if |s.queue| >= s.cfg.queueSize {
      b := s;
    } else {
      var e := Apply(s, WorkerEnqueue);
      StepKeepsOk(s, WorkerEnqueue);
      BootStep(s);
      RunThen(s, s, WorkerEnqueue);
      b := BootJams(e);
      RunsThen(s, e, b);
    }
  }

  lemma BootNonempty(s: System)
    requires SystemOk(s) && s.worker.Booting?
    ensures s.worker.rest != []
  {}

  lemma BootStep(s: System)
    requires s.worker.Booting? && s.worker.rest != [] && !Room(s) && |s.queue| < s.cfg.queueSize
    ensures var e := Apply(s, WorkerEnqueue);
            Enabled(s, WorkerEnqueue) && !Room(e) && e.worker == Booting(s.worker.rest[1..])
  {}

  lemma RetryJams(s: System, id: string, t: Time)
    requires SystemOk(s) && s.worker == Executing(id) && !Room(s) && !IsExpired(s.mem.jobs[id], t)
    ensures var b := Apply(s, WorkerFinish(Error("down"), t, t));
            Jammed(b) && Enabled(s, WorkerFinish(Error("down"), t, t))
  {
    AttemptsOk(s, id);
    FinishFlow(s, Error("down"), t, t);
    hide Apply, SystemOk, IsExpired;
  }

  lemma BeginJams(s: System, id: string, t: Time)
    requires SystemOk(s) && s.worker == Holding(id) && !Room(s) && !IsExpired(s.mem.jobs[id], t)
    ensures var e := Apply(s, WorkerBegin(t, t));
            && Enabled(s, WorkerBegin(t, t)) && e.worker == Executing(id) && !Room(e)
            && id in e.mem.jobs && !IsExpired(e.mem.jobs[id], t)
  {
    BeginWorker(s, t, t);
    JobAfter(s, WorkerBegin(t, t), id);
    hide Apply, SystemOk;
  }

  /** An instant at which the job is within its deadline. */
  function InTime(j: JobRecord): (t: Time)
    ensures !IsExpired(j, t)
  {
    if j.expiresAt.Some? then j.expiresAt.value else 0
  }

  lemma Jams(s: System) returns (b: System)
    requires SystemOk(s) && !Room(s)
    ensures Runs(s, b) && Jammed(b)
  {
    hide SystemOk, Apply, Enabled, Runs, IsExpired;
    RunsNowhere(s);
    match s.worker
    case Idle =>
    case Booting(_) => b := BootJams(s);
    case Retrying(_) => b := s;
    case Executing(id) =>
      var t := InTime(s.mem.jobs[id]);
      RetryJams(s, id, t);
      b := Apply(s, WorkerFinish(Error("down"), t, t));
      RunThen(s, s, WorkerFinish(Error("down"), t, t));
    case Holding(id) =>
      var t := InTime(s.mem.jobs[id]);
      var e := Apply(s, WorkerBegin(t, t));
      BeginJams(s, id, t);
      StepKeepsOk(s, WorkerBegin(t, t));
      RunThen(s, s, WorkerBegin(t, t));
      RetryJams(e, id, t);
      b := Apply(e, WorkerFinish(Error("down"), t, t));
      RunThen(s, e, WorkerFinish(Error("down"), t, t));
  }

  /** The worker alone can get stuck on an enqueue of its own exactly when there is no room for it. */
  lemma JamsExactly(s: System)
    requires SystemOk(s)
    ensures (exists b :: Runs(s, b) && Jammed(b)) <==> !Room(s)
  {
    hide SystemOk, Jammed, Room;
    if !Room(s) { var b := Jams(s); }
    if b :| Runs(s, b) && Jammed(b) {
      var states, steps :| IsRun(states, steps) && ByWorker(steps) && states[0] == s && states[|steps|] == b;
      if Room(s) {
        RoomStays(states, steps, |steps|);
        RoomPasses(b);
      }
    }
  }

  lemma RoomPasses(s: System)
    requires Room(s)
    ensures !Jammed(s)
  {}

  const BRIEF := Submission("t", "p", "", "h", "e", "n", "y", "2026-01-01", None)

  /** Only the first job exists, and the executor is working on its first attempt. */
  predicate FirstExecutes(s: System) {
    && s.worker == Executing(JobId(1)) && s.queue == [] && s.pending == multiset{} && s.dropped == {}
    && s.cfg.queueSize == 1 && s.mem.nextID == 1 && s.mem.idempotency == map[]
    && JobId(1) in s.mem.jobs
    && var j := s.mem.jobs[JobId(1)];
       j.status == Running && j.attempt < j.maxAttempts && !IsExpired(j, s.clock)
  }

  lemma SubmitAndTake(s: System) returns (s2: System)
    requires s.worker.Idle? || s.worker.Executing?
    requires s.queue == [] && s.pending == multiset{} && s.dropped == {} && s.cfg.queueSize == 1 && s.mem.idempotency == map[]
    ensures var s1 := Apply(s, SubmitJob(BRIEF, s.clock));
            var id := JobId(s.mem.nextID + 1);
            && Enabled(s, SubmitJob(BRIEF, s.clock)) && Enabled(s1, ApiEnqueue(id)) && s2 == Apply(s1, ApiEnqueue(id))
            && s2.queue == [id] && s2.pending == multiset{} && s2.dropped == {} && s2.worker == s.worker && s2.cfg == s.cfg
            && s2.clock == s.clock && s2.mem.nextID == s.mem.nextID + 1 && s2.mem.idempotency == map[]
            && s2.mem.jobs == s.mem.jobs[id := NewJob(s.mem, s.cfg, BRIEF, s.clock)]
  {
    hide JobId, CloneCallback;
    s2 := Apply(Apply(s, SubmitJob(BRIEF, s.clock)), ApiEnqueue(JobId(s.mem.nextID + 1)));
  }

  lemma TakeFirst(s2: System) returns (s3: System, s4: System)
    requires s2.worker.Idle? && s2.queue == [JobId(1)] && s2.pending == multiset{} && s2.dropped == {}
    requires s2.cfg.queueSize == 1 && s2.mem.nextID == 1 && s2.mem.idempotency == map[] && JobId(1) in s2.mem.jobs
    requires var j := s2.mem.jobs[JobId(1)]; j.status == Queued && j.attempt < j.maxAttempts && !IsExpired(j, s2.clock)
    ensures s3 == Apply(s2, WorkerDequeue) && Enabled(s2, WorkerDequeue)
    ensures s4 == Apply(s3, WorkerBegin(s2.clock, s2.clock)) && Enabled(s3, WorkerBegin(s2.clock, s2.clock))
    ensures FirstExecutes(s4) && s4.clock == s2.clock
  {
    hide JobId;
    s3 := Apply(s2, WorkerDequeue);
    s4 := Apply(s3, WorkerBegin(s2.clock, s2.clock));
  }

  lemma FailFirst(s6: System) returns (s7: System)
    requires s6.worker == Executing(JobId(1)) && |s6.queue| == 1 && s6.pending == multiset{} && s6.dropped == {}
    requires s6.cfg.queueSize == 1 && JobId(1) in s6.mem.jobs
    requires var j := s6.mem.jobs[JobId(1)]; j.status == Running && j.attempt < j.maxAttempts && !IsExpired(j, s6.clock)
    ensures var fail := WorkerFinish(Error("down"), s6.clock, s6.clock);
            Enabled(s6, fail) && s7 == Apply(s6, fail) && Jammed(s7) && s7.pending == multiset{} && s7.dropped == {}
  {
    hide JobId;
    s7 := Apply(s6, WorkerFinish(Error("down"), s6.clock, s6.clock));
  }

  lemma NewJobFresh(st: State, cfg: Config, t: Time)
    requires ConfigOk(cfg) && cfg.maxAttempts > 1
    ensures var j := NewJob(st, cfg, BRIEF, t); j.status == Queued && j.attempt < j.maxAttempts && !IsExpired(j, t)
  {}

  ghost predicate Goes(s: System, s': System) {
    exists states, steps :: IsRun(states, steps) && Synchronous(steps) && states[0] == s && states[|steps|] == s'
  }

  lemma GoesNowhere(s: System)
    ensures Goes(s, s)
  {
    var none: seq<Step> := [];
    assert IsRun([s], none) && Synchronous(none) && [s][|none|] == s;
  }

  lemma GoesThen(s: System, m: System, step: Step)
    requires Goes(s, m) && Enabled(m, step) && (step.WorkerFinish? ==> !step.outcome.AsyncAccepted?)
    ensures Goes(s, Apply(m, step))
  {
    hide Apply, Enabled;
    var states, steps :| IsRun(states, steps) && Synchronous(steps) && states[0] == s && states[|steps|] == m;
    var next, last := [m, Apply(m, step)], [step];
    assert IsRun(next, last);
    hide Next;
    RunAppend(states, steps, next, last);
    assert Synchronous(steps + last);
  }

  /** The room is needed: a synchronous run can block the worker on its own retry. */
  lemma RoomIsNeeded(s: System)
    requires Init(s) && s.cfg.queueSize == 1 && s.cfg.maxAttempts > 1
    ensures exists s' :: Goes(s, s') && Jammed(s') && s'.pending == multiset{} && s'.dropped == {}
  {
    hide Apply, Enabled, JobId, IsExpired, NewJob, Jammed, Goes;
    var t, submit := s.clock, SubmitJob(BRIEF, s.clock);
    NewJobFresh(s.mem, s.cfg, t);
    JobIdInjective(1, 2);
    var s2 := SubmitAndTake(s);
    var s3, s4 := TakeFirst(s2);
    var s6 := SubmitAndTake(s4);
    var s7 := FailFirst(s6);
    GoesNowhere(s);
    GoesThen(s, s, submit);
    GoesThen(s, Apply(s, submit), ApiEnqueue(JobId(1)));
    GoesThen(s, s2, WorkerDequeue);
    GoesThen(s, s3, WorkerBegin(t, t));
    GoesThen(s, s4, submit);
    GoesThen(s, Apply(s4, submit), ApiEnqueue(JobId(2)));
    GoesThen(s, s6, WorkerFinish(Error("down"), t, t));
    assert Goes(s, s7) && Jammed(s7);
  }
}
