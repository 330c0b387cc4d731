/** The server of `JobServer`, driven by the steps of `JobMachine`: it performs each of them, and so every run. */
module JobRefinement {
  import opened Jobs
  import opened JobMachine
  import opened JobServer
  import JobInvariants

  /** The server object stands for a state of the machine; the worker's place and the counters are not part of it. */
  ghost predicate Shows(server: Server, s: System)
    reads server, server.Objects(), server.store, server.queue
  {
    && server.Valid() && server.Persisted() && !server.queue.closed
    && s.mem == server.View() && s.disk == s.mem && s.cfg == server.cfg && s.queue == server.queue.ch
  }

  /** The step of a request: one critical section. */
  predicate IsRequest(step: Step) {
    step.SubmitJob? || step.ExpireJob? || step.CancelJob? || step.ReplayJob? || step.ReceiveEvent?
  }

  function AfterRequest(s: System, step: Step): State
    requires IsRequest(step)
  {
    match step
    case SubmitJob(sub, t) => SubmitState(s.mem, s.cfg, sub, t)
    case ExpireJob(id, t) => ExpireState(s.mem, id, t)
    case CancelJob(id, tenantID, projectID, t) => CancelState(s.mem, id, tenantID, projectID, t)
    case ReplayJob(id, tenantID, projectID, t) => ReplayState(s.mem, id, tenantID, projectID, t)
    case ReceiveEvent(ev, t) => EventState(s.mem, ev, t)
  }

  lemma RequestApplied(s: System, step: Step)
    requires IsRequest(step) && s.disk == s.mem
    ensures var s' := Apply(s, step);
            && s'.mem == AfterRequest(s, step) && s'.disk == s'.mem
            && s'.cfg == s.cfg && s'.queue == s.queue && s'.worker == s.worker
  {
    hide SubmitState, ExpireState, CancelState, ReplayState, EventState, KnownKey, ReplayAnswer, JobId;
  }

  method Request(server: Server, step: Step, ghost s: System)
    requires Shows(server, s) && IsRequest(step)
    modifies server, server.Objects(), server.store
    ensures Shows(server, Apply(s, step)) && fresh(server.Objects() - old(server.Objects()))
    ensures Apply(s, step).worker == s.worker
  {
    RequestApplied(s, step);
    hide Apply, Server.View, Server.Valid, Server.Sound, Server.Persisted;
    hide SubmitState, ExpireState, CancelState, ReplayState, EventState;
    match step
    case SubmitJob(sub, t) => var _, _ := server.SubmitLocked(sub, t);
    case ExpireJob(id, t) => server.ExpireJobIfNeeded(id, t);
    case CancelJob(id, tenantID, projectID, t) => var _ := server.CancelLocked(id, tenantID, projectID, t);
    case ReplayJob(id, tenantID, projectID, t) => var _ := server.ReplayLocked(id, tenantID, projectID, t);
    case ReceiveEvent(ev, t) => var _ := server.ReceiveEvent(ev, t);
  }

  /** The worker's critical sections; what they answer is where the worker goes. */
  method Work(server: Server, worker: Worker, step: Step, ghost s: System) returns (next: Worker)
    requires Shows(server, s) && worker == s.worker && Enabled(s, step) && (step.WorkerBegin? || step.WorkerFinish?)
    modifies server`dlq, server.Objects(), server.store
    ensures Shows(server, Apply(s, step)) && next == Apply(s, step).worker && server.jobs == old(server.jobs)
  {
    hide Server.View, Server.Valid, Server.Sound, Server.Persisted, BeginState, FinishState, BeginExecutes, FinishRetries;
    match step
    case WorkerBegin(t1, t2) =>
      var execute := server.BeginJob(worker.id, t1, t2);
      next := if execute then Executing(worker.id) else Idle;
    case WorkerFinish(outcome, t1, t2) =>
      var retry := server.FinishJob(worker.id, outcome, t1, t2);
      next := if retry then Retrying(worker.id) else Idle;
  }

  /** Enqueues that go through or time out, and the worker's dequeue. */
  method Tokens(server: Server, worker: Worker, step: Step, ghost s: System) returns (next: Worker)
    requires Shows(server, s) && worker == s.worker && Enabled(s, step)
    requires !IsRequest(step) && !step.WorkerBegin? && !step.WorkerFinish? && !step.Restart?
    modifies server.queue
    ensures Shows(server, Apply(s, step)) && next == Apply(s, step).worker
  {
    hide Server.View, Server.Valid, Server.Sound, Server.Persisted;
    match step {
      case ApiEnqueue(id) => server.Enqueue(id, false); next := worker;
      case ApiTimeout(id) => server.Enqueue(id, true); next := worker;
      case WorkerDequeue =>
        var item := server.queue.Dequeue();
        next := Holding(item.value);
      case WorkerEnqueue => server.Enqueue(EnqueueTarget(worker), false); next := AfterEnqueue(worker);
      case WorkerTimeout => server.Enqueue(EnqueueTarget(worker), true); next := AfterEnqueue(worker);
    }
    server.JobsUnchanged();
  }

  /** The server performs any step short of a restart. */
  method Perform(server: Server, worker: Worker, step: Step, ghost s: System) returns (next: Worker)
    requires Shows(server, s) && worker == s.worker && Enabled(s, step) && !step.Restart?
    modifies server, server.Objects(), server.store, server.queue
    ensures Shows(server, Apply(s, step)) && next == Apply(s, step).worker
    ensures fresh(server.Objects() - old(server.Objects()))
  {
    hide Shows, Apply, Enabled;
    if IsRequest(step) {
      Request(server, step, s);
      next := worker;
    } else if step.WorkerBegin? || step.WorkerFinish? {
      next := Work(server, worker, step, s);
    } else {
      next := Tokens(server, worker, step, s);
    }
  }

  /** And so it follows every run in which the process is not restarted. */
  method Follow(server: Server, worker: Worker, steps: seq<Step>, ghost states: seq<System>) returns (last: Worker)
    requires IsRun(states, steps) && (forall i :: 0 <= i < |steps| ==> !steps[i].Restart?)
    requires Shows(server, states[0]) && worker == states[0].worker
    modifies server, server.Objects(), server.store, server.queue
    ensures Shows(server, states[|steps|]) && last == states[|steps|].worker
  {
    hide Shows, Apply, Enabled, IsRequest;
    last := worker;
    for i := 0 to |steps|
      invariant Shows(server, states[i]) && last == states[i].worker
      invariant fresh(server.Objects() - old(server.Objects()))
    {
      RunStep(states, steps, i);
      last := Perform(server, last, steps[i], states[i]);
    }
  }

  /** A new server shows the first state of a run. */
  method Start(cfg: Config, store: StateStore, ghost s: System) returns (server: Server)
    requires Init(s) && s.cfg == cfg && store.saved == EMPTY
    ensures Shows(server, s) && fresh(server)
  {
    server := new Server(cfg, store);
  }

  // ---- restarts -------------------------------------------------------------------------

  /** The boot enqueues what fits and lets the rest time out: nobody takes anything meanwhile. */
  function BootStep(s: System): Step {
    if |s.queue| < s.cfg.queueSize then WorkerEnqueue else WorkerTimeout
  }

  function Booted(s: System): System
    decreases if s.worker.Booting? then |s.worker.rest| else 0
  {
    if s.worker.Booting? && s.worker.rest != [] then Booted(Apply(s, BootStep(s))) else s
  }

  function Fitting(ids: seq<string>, room: nat): seq<string> {
    if |ids| <= room then ids else ids[..room]
  }

  lemma FittingNext(q: seq<string>, ids: seq<string>, room: nat)
    requires ids != []
    ensures room > 0 ==> q + [ids[0]] + Fitting(ids[1..], room - 1) == q + Fitting(ids, room)
    ensures room == 0 ==> Fitting(ids, room) == Fitting(ids[1..], room) == []
  {}

  lemma BootStepped(s: System)
    requires s.worker.Booting? && s.worker.rest != [] && |s.queue| <= s.cfg.queueSize
    ensures var s' := Apply(s, BootStep(s));
            && Enabled(s, BootStep(s))
            && s'.mem == s.mem && s'.disk == s.disk && s'.cfg == s.cfg && s'.worker == BootOf(s.worker.rest[1..])
            && s'.queue == if |s.queue| < s.cfg.queueSize then s.queue + [s.worker.rest[0]] else s.queue
  {}

  lemma {:induction false} BootedIs(s: System)
    requires s.worker.Booting? && s.worker.rest != [] && |s.queue| <= s.cfg.queueSize
    ensures var e := Booted(s);
            && e.mem == s.mem && e.disk == s.disk && e.cfg == s.cfg && e.worker == Idle
            && e.queue == s.queue + Fitting(s.worker.rest, s.cfg.queueSize - |s.queue|)
    decreases |s.worker.rest|
  {
    var rest, room := s.worker.rest, s.cfg.queueSize - |s.queue|;
    BootStepped(s);
    FittingNext(s.queue, rest, room);
    hide Apply, Enabled, BootStep;
    if |rest| > 1 { BootedIs(Apply(s, BootStep(s))); } else { assert rest[1..] == []; }
  }

  /** The boot is a run of the machine. */
  lemma {:induction false} BootedRuns(s: System) returns (states: seq<System>, steps: seq<Step>)
    requires s.worker.Booting? ==> |s.queue| <= s.cfg.queueSize
    ensures IsRun(states, steps) && states[0] == s && states[|steps|] == Booted(s)
    decreases if s.worker.Booting? then |s.worker.rest| else 0
  {
    hide Apply, Enabled, BootStep;
    if s.worker.Booting? && s.worker.rest != [] {
      var s' := Apply(s, BootStep(s));
      BootStepped(s);
      assert IsRun([s, s'], [BootStep(s)]);
      states, steps := BootedRuns(s');
      RunAppend([s, s'], [BootStep(s)], states, steps);
      states, steps := [s, s'] + states[1..], [BootStep(s)] + steps;
    } else {
      states, steps := [s], [];
    }
  }

  lemma RestartBoots(s: System, order: seq<string>, cfg: Config)
    requires ConfigOk(cfg) && s.disk == s.mem && Enumerates(order, PendingIds(LoadState(s.disk, cfg)))
    ensures Enabled(s, Restart(order, cfg))
    ensures var st, e := LoadState(s.disk, cfg), Booted(Apply(s, Restart(order, cfg)));
            && e.mem == st && e.disk == (if order == [] then s.disk else st) && e.cfg == cfg
            && e.worker == Idle && e.queue == Fitting(order, cfg.queueSize)
  {
    hide LoadState, PendingIds;
    OrderEmpty(order, PendingIds(LoadState(s.disk, cfg)));
    if order != [] { BootedIs(Apply(s, Restart(order, cfg))); }
  }

  lemma OrderEmpty(order: seq<string>, ids: set<string>)
    requires Enumerates(order, ids)
    ensures order == [] <==> ids == {}
  {
    if order != [] { assert order[0] in multiset(order); }
    if id :| id in ids { assert id in multiset(order); }
  }

  /** A new process on the same store shows what a restart and its boot make of the old state. */
  method Restarted(cfg: Config, store: StateStore, ghost s: System) returns (server: Server, ghost order: seq<string>)
    requires ConfigOk(cfg) && JobInvariants.StateOk(s.mem) && s.disk == s.mem && store.saved == s.disk
    modifies store
    ensures Enabled(s, Restart(order, cfg))
    ensures Shows(server, Booted(Apply(s, Restart(order, cfg)))) && fresh(server)
  {
    server := new Server(cfg, store);
    assert server.queue.size == cfg.queueSize && Server.OwnIds(s.mem);
    hide Server.View, Server.Sound, Server.Valid, Jobs.LoadState, Booted, Apply, JobInvariants.StateOk, Server.OwnIds, PendingIds;
    order := server.LoadState();
    RestartBoots(s, order, cfg);
    if order == [] {
      OrderEmpty(order, PendingIds(server.View()));
      JobInvariants.NothingPending(s.mem, cfg);
    }
  }
}
