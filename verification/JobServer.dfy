/** The orchestrator as it runs: heap objects rewritten in place, each method one or more critical sections. */
module JobServer {
  import opened Text
  import opened Jobs
  import opened JobMetrics
  import opened Sums
  import opened JobDrain
  import JobInvariants

  /** `jobstore.Store` with a `Save` that succeeds. */
  class StateStore {
    var saved: State

    constructor ()
      ensures saved == EMPTY
    {
      saved := EMPTY;
    }

    method Load() returns (st: State)
      ensures st == saved
    {
      st := saved;
    }

    method Save(st: State)
      modifies this
      ensures saved == st
    {
      saved := st;
    }
  }

  datatype EnqueueResult = Enqueued | QueueClosed | DeadlineExceeded

  /** The bounded channel of the in-memory queue. */
  class MemoryQueue {
    const size: nat
    var ch: seq<string>
    var closed: bool

    constructor (size: int)
      ensures this.size == (if size <= 0 then 256 else size) && ch == [] && !closed
    {
      this.size := if size <= 0 then 256 else size;
      ch := [];
      closed := false;
    }

    /** `late` says that the context ended first although there was room. */
    method Enqueue(jobID: string, late: bool) returns (r: EnqueueResult)
      modifies this
      ensures closed == old(closed)
      ensures r == if closed then QueueClosed else if late || |old(ch)| >= size then DeadlineExceeded else Enqueued
      ensures ch == if r == Enqueued then old(ch) + [jobID] else old(ch)
    {
      if closed { return QueueClosed; }
      if late || |ch| >= size { return DeadlineExceeded; }
      ch := ch + [jobID];
      r := Enqueued;
    }

    /** `None` when the channel stays empty until the context ends. */
    method Dequeue() returns (item: Option<string>)
      modifies this
      ensures closed == old(closed)
      ensures item == if old(ch) == [] then None else Some(old(ch)[0])
      ensures ch == if old(ch) == [] then [] else old(ch)[1..]
    {
      if ch == [] { return None; }
      item := Some(ch[0]);
      ch := ch[1..];
    }

    function Depth(): nat
      reads this
    {
      |ch|
    }

    method Close()
      modifies this
      ensures closed && ch == old(ch)
    {
      closed := true;
    }
  }

  class Job {
    var ID: string
    var TenantID: string
    var ProjectID: string
    var ExpertID: string
    var ExpertName: string
    var ExpertType: string
    var Date: string
    var Status: Status
    var Progress: int
    var SubmittedAt: Time
    var UpdatedAt: Time
    var Attempt: int
    var MaxAttempts: int
    var ExpiresAt: Option<Time>
    var LastError: Option<string>
    var Result: Option<ExpertResult>
    var Callback: Option<Callback>

    constructor (j: JobRecord)
      ensures Record() == j && ID == j.id && Callback == j.callback
    {
      ID, TenantID, ProjectID := j.id, j.tenantID, j.projectID;
      ExpertID, ExpertName, ExpertType, Date := j.expertID, j.expertName, j.expertType, j.date;
      Status, Progress, SubmittedAt, UpdatedAt := j.status, j.progress, j.submittedAt, j.updatedAt;
      Attempt, MaxAttempts, ExpiresAt := j.attempt, j.maxAttempts, j.expiresAt;
      LastError, Result, Callback := j.lastError, j.result, j.callback;
    }

    /** The fields, as the value that is also stored. */
    function Record(): JobRecord
      reads this
    {
      JobRecord(
        ID, TenantID, ProjectID, ExpertID, ExpertName, ExpertType, Date,
        Status, Progress, SubmittedAt, UpdatedAt, Attempt, MaxAttempts, ExpiresAt, LastError, Result, Callback)
    }

    predicate IsTerminal()
      reads this
    {
      Status == Succeeded || Status == Failed || Status == Canceled || Status == Expired
    }

    method MarkExpired(now: Time)
      modifies this
      ensures Record() == Jobs.MarkExpired(old(Record()), now)
    {
      Status := Expired;
      UpdatedAt := now;
    }

    method MarkCanceled(now: Time)
      modifies this
      ensures Record() == old(Record()).(status := Canceled, updatedAt := now)
    {
      Status := Canceled;
      UpdatedAt := now;
    }

    method MarkRunning(progress: int, now: Time)
      modifies this
      ensures Record() == old(Record()).(status := Running, progress := progress, updatedAt := now)
    {
      Status := Running;
      Progress := progress;
      UpdatedAt := now;
    }

    method MarkSucceeded(result: Option<ExpertResult>, now: Time)
      modifies this
      ensures Record() == old(Record()).(status := Succeeded, progress := 100, result := result, lastError := None, updatedAt := now)
    {
      Status := Succeeded;
      Progress := 100;
      Result := result;
      LastError := None;
      UpdatedAt := now;
    }

    method MarkFailed(error: Option<string>, now: Time)
      modifies this
      ensures Record() == old(Record()).(status := Failed, progress := 100, lastError := error, updatedAt := now)
    {
      Status := Failed;
      Progress := 100;
      LastError := error;
      UpdatedAt := now;
    }

    method MarkReplayed(now: Time)
      modifies this
      ensures Record() == old(Record()).(status := Queued, progress := 0, attempt := 1, updatedAt := now, lastError := None)
    {
      Status := Queued;
      Progress := 0;
      Attempt := 1;
      UpdatedAt := now;
      LastError := None;
    }

    method MarkRetried()
      modifies this
      ensures Record() == old(Record()).(status := Queued, progress := 0, attempt := old(Attempt) + 1)
    {
      Attempt := Attempt + 1;
      Status := Queued;
      Progress := 0;
    }

    method NoteError(message: string, now: Time)
      modifies this
      ensures Record() == old(Record()).(lastError := Some(message), updatedAt := now)
      ensures Status == old(Status) && Attempt == old(Attempt) && MaxAttempts == old(MaxAttempts)
    {
      LastError := Some(message);
      UpdatedAt := now;
    }
  }

  class Server {
    var jobs: map<string, Job>
    var idem: map<string, IdempotencyEntry>
    var dlq: map<string, DeadLetter>
    var nextID: nat
    const cfg: Config
    const store: StateStore
    const queue: MemoryQueue

    ghost function Objects(): set<Job>
      reads this`jobs
    {
      set id | id in jobs :: jobs[id]
    }

    /** Distinct ids hold distinct records, each with a callback in cloned form. */
    ghost predicate Sound()
      reads this`jobs, Objects()
    {
      && ConfigOk(cfg) && queue.size == cfg.queueSize
      && (forall a, b :: a in jobs && b in jobs && a != b ==> jobs[a] != jobs[b])
      && (forall id :: id in jobs ==> CloneCallback(jobs[id].Callback) == jobs[id].Callback)
    }

    /** And each record stands under its own id. */
    ghost predicate Valid()
      reads this`jobs, Objects()
      ensures Valid() ==> Sound()
    {
      Sound() && forall id :: id in jobs ==> jobs[id].ID == id
    }

    /** What the mutex guards, as a value. */
    ghost function View(): State
      reads this, Objects()
    {
      State(nextID, map id | id in jobs :: jobs[id].Record(), idem, dlq)
    }

    ghost predicate Persisted()
      reads this, Objects(), store
    {
      store.saved == View()
    }

    constructor (cfg: Config, store: StateStore)
      requires ConfigOk(cfg)
      ensures Valid() && View() == EMPTY && this.cfg == cfg && this.store == store
      ensures fresh(queue) && queue.ch == [] && !queue.closed
    {
      this.cfg, this.store := cfg, store;
      jobs, idem, dlq, nextID := map[], map[], map[], 0;
      queue := new MemoryQueue(cfg.queueSize);
    }

    /** Copies every map into a snapshot and saves it; the maps come in any order. */
    method PersistLocked()
      requires Sound()
      modifies store
      ensures Persisted() && Sound() && View() == old(View())
      ensures old(Valid()) ==> Valid()
    {
      ViewFields();
      hide View, Valid, Sound, Job.Record, CloneCallback;
      var storedJobs := CopyJobs();
      var storedIdem := CopyMap(idem);
      var storedLetters := CopyMap(dlq);
      store.Save(State(nextID, storedJobs, storedIdem, storedLetters));
      JobsUnchanged();
    }

    method CopyJobs() returns (storedJobs: map<string, JobRecord>)
      requires Sound()
      ensures storedJobs == View().jobs
    {
      hide CloneCallback;
      storedJobs := map[];
      var todo := jobs.Keys;
      while todo != {}
        invariant todo <= jobs.Keys
        invariant storedJobs.Keys == jobs.Keys - todo
        invariant forall id :: id in storedJobs ==> storedJobs[id] == jobs[id].Record()
        decreases todo
      {
        var id :| id in todo;
        var j := jobs[id];
        storedJobs := storedJobs[id := j.Record().(callback := CloneCallback(j.Callback))];
        todo := todo - {id};
      }
      assert storedJobs == View().jobs;
    }

    static method CopyMap<V>(m: map<string, V>) returns (out: map<string, V>)
      ensures out == m
    {
      out := map[];
      var todo := m.Keys;
      while todo != {}
        invariant todo <= m.Keys
        invariant out.Keys == m.Keys - todo
        invariant forall key :: key in out ==> out[key] == m[key]
        decreases todo
      {
        var key :| key in todo;
        out := out[key := m[key]];
        todo := todo - {key};
      }
    }

    /** Writing to one record changes the view at its id alone. */
    twostate lemma Rewritten(id: string)
      requires jobs == old(jobs) && nextID == old(nextID) && idem == old(idem)
      requires old(Valid()) && id in jobs
      requires forall o :: o in old(Objects()) && o != jobs[id] ==> unchanged(o)
      requires jobs[id].ID == old(jobs[id].ID) && jobs[id].Callback == old(jobs[id].Callback)
      ensures Valid()
      ensures jobs[id].ID == id && View() == old(View()).(jobs := old(View()).jobs[id := jobs[id].Record()], deadLetters := dlq)
    {
      hide CloneCallback;
      forall x | x in jobs && x != id ensures jobs[x].Record() == old(jobs[x].Record()) {
        assert jobs[x] in old(Objects()) && unchanged(jobs[x]);
      }
      assert View().jobs == old(View()).jobs[id := jobs[id].Record()];
    }

    /** What a lookup under the lock sees. */
    lemma Seen(id: string)
      requires Valid() && id in jobs
      ensures id in View().jobs && View().jobs[id] == jobs[id].Record() && jobs[id].ID == id && jobs[id] in Objects()
      ensures var j := jobs[id].Record();
              && j.status == jobs[id].Status && j.tenantID == jobs[id].TenantID && j.projectID == jobs[id].ProjectID
              && j.attempt == jobs[id].Attempt && j.maxAttempts == jobs[id].MaxAttempts
    {}

    method ExpireJobIfNeeded(jobID: string, now: Time)
      requires Valid()
      modifies Objects(), store
      ensures Valid() && View() == ExpireState(old(View()), jobID, now)
      ensures old(Persisted()) ==> Persisted()
    {
      if jobID !in jobs { return; }
      var current := jobs[jobID];
      Seen(jobID);
      hide View, Valid, Sound, Persisted, CloneCallback, Job.Record, IsExpired;
      if current.IsTerminal() { return; }
      if IsExpired(current.Record(), now) {
        current.MarkExpired(now);
        Rewritten(jobID);
        PersistLocked();
      }
    }

    /** The critical section of a submit; a new job is still to be enqueued. */
    method SubmitLocked(sub: Submission, now: Time) returns (reply: SubmitReply, created: Option<string>)
      requires Valid()
      modifies this, store
      ensures Valid() && View() == SubmitState(old(View()), cfg, sub, now)
      ensures reply == SubmitAnswer(old(View()), cfg, sub, now)
      ensures created == if KnownKey(old(View()), sub) then None else Some(JobId(old(nextID) + 1))
      ensures old(Persisted()) ==> Persisted()
      ensures fresh(Objects() - old(Objects()))
    {
      ViewFields();
      hide ScopedKey, CloneCallback, View, Valid, Sound, Job.Record, JobId;
      var key := ScopedKey(sub.tenantID, sub.projectID, sub.idempotencyKey);
      if key != "" && key in idem {
        var record := idem[key];
        if record.payloadHash != sub.payloadHash { return Mismatch, None; }
        if record.jobID !in jobs { return RecordWithoutJob, None; }
        Seen(record.jobID);
        return Accepted(jobs[record.jobID].Record()), None;
      }
      var newJob := CreateJob(sub, now);
      ViewFields();
      label created:
      if key != "" {
        idem := idem[key := IdempotencyEntry(sub.payloadHash, newJob.ID)];
      }
      JobsUnchanged@created();
      assert View() == SubmitState(old(View()), cfg, sub, now);
      PersistLocked();
      return Accepted(newJob.Record()), Some(newJob.ID);
    }

    /** Counting on and recording a key leave the jobs alone. */
    twostate lemma JobsUnchanged()
      requires jobs == old(jobs) && dlq == old(dlq)
      requires forall o :: o in old(Objects()) ==> unchanged(o)
      ensures (old(Sound()) ==> Sound()) && (old(Valid()) ==> Valid())
      ensures View() == old(View()).(nextID := nextID, idempotency := idem)
    {
      forall x | x in jobs ensures jobs[x].Record() == old(jobs[x].Record()) {
        assert jobs[x] in old(Objects()) && unchanged(jobs[x]);
      }
      assert View().jobs == old(View()).jobs;
    }

    lemma ViewFields()
      ensures View().nextID == nextID && View().idempotency == idem && View().deadLetters == dlq && View().jobs.Keys == jobs.Keys
    {}

    method CreateJob(sub: Submission, now: Time) returns (newJob: Job)
      requires Valid()
      modifies this`nextID, this`jobs, this`dlq
      ensures Valid() && fresh(newJob) && Objects() <= old(Objects()) + {newJob}
      ensures newJob.Record() == NewJob(old(View()), cfg, sub, now) && newJob.ID == JobId(old(nextID) + 1)
      ensures View() == ChangeState(
                old(View()).(nextID := old(nextID) + 1), newJob.ID, Change(newJob.Record(), DropLetter))
    {
      CloneCallbackIdempotent(sub.callback);
      ViewFields();
      hide View, Valid, Sound, CloneCallback, Job.Record, Objects, JobId;
      nextID := nextID + 1;
      JobsUnchanged();
      var record := JobRecord(
        JobId(nextID), sub.tenantID, sub.projectID, sub.expertID, sub.expertName, sub.expertType, sub.date,
        Queued, 0, now, now, 1, cfg.maxAttempts, Some(now + cfg.jobTTL), None, None, CloneCallback(sub.callback));
      assert record == NewJob(old(View()), cfg, sub, now);
      hide NewJob;
      newJob := AddJob(record);
    }

    method AddJob(record: JobRecord) returns (newJob: Job)
      requires Valid() && CloneCallback(record.callback) == record.callback
      modifies this`jobs, this`dlq
      ensures Valid() && fresh(newJob) && Objects() <= old(Objects()) + {newJob}
      ensures newJob.Record() == record && newJob.ID == record.id
      ensures View() == ChangeState(old(View()), record.id, Change(record, DropLetter))
    {
      hide View, Valid, Sound, CloneCallback, Job.Record;
      newJob := new Job(record);
      jobs := jobs[record.id := newJob];
      dlq := dlq - {record.id};
      Inserted(record.id, newJob);
    }

    /** Putting a new record into the map changes the view at its id alone. */
    twostate lemma Inserted(id: string, new newJob: Job)
      requires jobs == old(jobs)[id := newJob] && idem == old(idem) && fresh(newJob)
      requires old(Valid()) && forall o :: o in old(Objects()) ==> unchanged(o)
      requires newJob.ID == id && CloneCallback(newJob.Callback) == newJob.Callback
      ensures Valid()
      ensures old(View()).nextID == old(nextID) && old(View()).deadLetters == old(dlq)
      ensures View() == old(View()).(nextID := nextID, jobs := old(View()).jobs[id := newJob.Record()], deadLetters := dlq)
    {
      InsertedValid(id, newJob);
      InsertedJobs(id, newJob);
      hide Valid, Sound, Job.Record, CloneCallback, Objects;
    }

    twostate lemma InsertedJobs(id: string, new newJob: Job)
      requires jobs == old(jobs)[id := newJob]
      requires forall o :: o in old(Objects()) ==> unchanged(o)
      ensures View().jobs == old(View()).jobs[id := newJob.Record()]
    {
      hide Job.Record;
      forall x | x in old(jobs) && x != id ensures jobs[x].Record() == old(jobs[x].Record()) {
        assert old(jobs[x]) in old(Objects()) && unchanged(jobs[x]);
      }
    }

    twostate lemma InsertedValid(id: string, new newJob: Job)
      requires jobs == old(jobs)[id := newJob] && fresh(newJob)
      requires old(Valid()) && forall o :: o in old(Objects()) ==> unchanged(o)
      requires newJob.ID == id && CloneCallback(newJob.Callback) == newJob.Callback
      ensures Valid()
    {
      hide CloneCallback;
      forall x | x in old(jobs) && x != id
        ensures jobs[x].ID == old(jobs[x].ID) && jobs[x].Callback == old(jobs[x].Callback) && jobs[x] != newJob
      {
        assert old(jobs[x]) in old(Objects()) && unchanged(jobs[x]);
      }
    }

    method SubmitBriefJob(sub: Submission, now: Time, late: bool) returns (reply: SubmitReply)
      requires Valid()
      modifies this, store, queue
      ensures Valid() && View() == SubmitState(old(View()), cfg, sub, now)
      ensures reply == SubmitAnswer(old(View()), cfg, sub, now)
      ensures queue.ch == old(queue.ch) +
                if KnownKey(old(View()), sub) || !old(Accepts(late)) then [] else [JobId(old(nextID) + 1)]
      ensures old(Persisted()) ==> Persisted()
      ensures fresh(Objects() - old(Objects()))
    {
      var created;
      reply, created := SubmitLocked(sub, now);
      if created.Some? { Enqueue(created.value, late); }
    }

    /** An enqueue now goes through. */
    predicate Accepts(late: bool)
      reads queue
    {
      !queue.closed && !late && |queue.ch| < queue.size
    }

    /** A failed enqueue is only logged: the token is gone. */
    method Enqueue(jobID: string, late: bool)
      modifies queue
      ensures queue.closed == old(queue.closed)
      ensures queue.ch == old(queue.ch) + if old(Accepts(late)) then [jobID] else []
    {
      var _ := queue.Enqueue(jobID, late);
    }

    method CancelLocked(jobID: string, tenantID: string, projectID: string, now: Time) returns (reply: Reply)
      requires Valid()
      modifies Objects(), store
      ensures Valid() && View() == CancelState(old(View()), jobID, tenantID, projectID, now)
      ensures reply == CancelAnswer(old(View()), jobID, tenantID, projectID)
      ensures old(Persisted()) ==> Persisted()
    {
      if jobID !in jobs || jobs[jobID].TenantID != tenantID || jobs[jobID].ProjectID != projectID { return NotFound; }
      var current := jobs[jobID];
      Seen(jobID);
      hide View, Valid, Sound, Persisted, CloneCallback, Job.Record, IsExpired;
      if current.IsTerminal() {
        return InvalidTransition;
      }
      current.MarkCanceled(now);
      Rewritten(jobID);
      PersistLocked();
      reply := Done;
    }

    /** Two critical sections: expire on access, then cancel. */
    method CancelJob(jobID: string, tenantID: string, projectID: string, before: Time, now: Time) returns (reply: Reply)
      requires Valid()
      modifies Objects(), store
      ensures Valid()
      ensures View() == CancelState(ExpireState(old(View()), jobID, before), jobID, tenantID, projectID, now)
      ensures reply == CancelAnswer(ExpireState(old(View()), jobID, before), jobID, tenantID, projectID)
      ensures old(Persisted()) ==> Persisted()
    {
      ExpireJobIfNeeded(jobID, before);
      reply := CancelLocked(jobID, tenantID, projectID, now);
    }

    method ReplayLocked(jobID: string, tenantID: string, projectID: string, now: Time) returns (reply: Reply)
      requires Valid()
      modifies this`dlq, Objects(), store
      ensures Valid() && View() == ReplayState(old(View()), jobID, tenantID, projectID, now)
      ensures reply == ReplayAnswer(old(View()), jobID, tenantID, projectID)
      ensures old(Persisted()) ==> Persisted()
    {
      if jobID !in jobs || jobs[jobID].TenantID != tenantID || jobs[jobID].ProjectID != projectID { return NotFound; }
      var current := jobs[jobID];
      Seen(jobID);
      hide View, Valid, Sound, Persisted, CloneCallback, Job.Record, IsExpired;
      if current.Status != Failed && current.Status != Canceled && current.Status != Expired { return InvalidTransition; }
      ghost var j := current.Record();
      hide Job.Record;
      current.MarkReplayed(now);
      assert Change(current.Record(), DropLetter) == ReplayChange(j, now);
      hide ReplayChange;
      dlq := dlq - {current.ID};
      Rewritten(jobID);
      ViewLetters();
      assert View() == ChangeState(old(View()), jobID, ReplayChange(j, now));
      PersistLocked();
      reply := Done;
    }

    method ReplayJob(jobID: string, tenantID: string, projectID: string, before: Time, now: Time, late: bool) returns (reply: Reply)
      requires Valid()
      modifies this`dlq, Objects(), store, queue
      ensures Valid()
      ensures View() == ReplayState(ExpireState(old(View()), jobID, before), jobID, tenantID, projectID, now)
      ensures reply == ReplayAnswer(ExpireState(old(View()), jobID, before), jobID, tenantID, projectID)
      ensures queue.ch == old(queue.ch) + if reply == Done && old(Accepts(late)) then [jobID] else []
      ensures old(Persisted()) ==> Persisted()
    {
      hide View, Valid, Sound, Persisted, ReplayState, ExpireState;
      ExpireJobIfNeeded(jobID, before);
      reply := ReplayLocked(jobID, tenantID, projectID, now);
      if reply == Done { Enqueue(jobID, late); }
    }

    method ReceiveEvent(ev: ExpertEvent, now: Time) returns (reply: Reply)
      requires Valid()
      modifies this`dlq, Objects(), store
      ensures Valid() && View() == EventState(old(View()), ev, now)
      ensures reply == EventAnswer(old(View()), ev)
      ensures old(Persisted()) ==> Persisted()
    {
      if ev.jobID !in jobs { return NotFound; }
      var current := jobs[ev.jobID];
      Seen(ev.jobID);
      hide View, Valid, Sound, Persisted, Job.Record, EventStatus, EventChange;
      if !current.IsTerminal() {
        var status := EventStatus(ev.status);
        if status == None { TerminalOrUnknown(current.Record(), status, ev, now); return InvalidInput; }
        EventTarget(ev.status);
        RecordEvent(current, status.value, ev, now);
        PersistLocked();
      } else {
        TerminalOrUnknown(current.Record(), EventStatus(ev.status), ev, now);
      }
      reply := Done;
    }

    lemma TerminalOrUnknown(j: JobRecord, status: Option<Status>, ev: ExpertEvent, now: Time)
      requires Terminal(j.status) || status == None
      ensures EventChange(j, status, ev, now) == NoChange
    {}

    lemma EventTarget(raw: string)
      ensures EventStatus(raw).Some? ==> EventStatus(raw).value in {Succeeded, Failed, Canceled}
    {}

    /** Writes down a terminal status reported by the expert. */
    method RecordEvent(current: Job, status: Status, ev: ExpertEvent, now: Time)
      requires Valid() && current.ID in jobs && jobs[current.ID] == current
      requires status in {Succeeded, Failed, Canceled} && !Terminal(current.Status)
      modifies this`dlq, current
      ensures Valid()
      ensures View() == ChangeState(old(View()), old(current.ID), EventChange(old(current.Record()), Some(status), ev, now))
    {
      ghost var jobID := current.ID;
      hide View, Valid, Sound, CloneCallback, EventChange;
      EnterStatus(current, status, ev, now);
      Rewritten(jobID);
      ViewLetters();
    }

    /** Enters the status in the job and moves its dead letter. */
    method EnterStatus(current: Job, status: Status, ev: ExpertEvent, now: Time)
      requires status in {Succeeded, Failed, Canceled} && !Terminal(current.Status)
      modifies this`dlq, current
      ensures var c := EventChange(old(current.Record()), Some(status), ev, now);
              current.Record() == c.job && dlq == ChangeLetters(old(dlq), current.ID, c.letter)
      ensures current.ID == old(current.ID) && current.Callback == old(current.Callback)
    {
      if status == Succeeded {
        current.MarkSucceeded(ev.result, now);
        dlq := dlq - {current.ID};
      } else if status == Failed {
        current.MarkFailed(ev.error, now);
        dlq := dlq[current.ID := LetterFor(current.Record(), RuntimeFailed, now, TextOf(ev.error))];
      } else {
        current.Progress := 100;
        current.MarkCanceled(now);
      }
    }

    twostate lemma ViewLetters()
      ensures old(View()).deadLetters == old(dlq)
    {}

    /** The first critical section of the worker: whether to call the executor. */
    method BeginJob(jobID: string, t1: Time, t2: Time) returns (execute: bool)
      requires Valid()
      modifies Objects(), store
      ensures Valid() && View() == BeginState(old(View()), jobID, t1, t2)
      ensures execute == BeginExecutes(old(View()), jobID, t1)
      ensures old(Persisted()) ==> Persisted()
    {
      if jobID !in jobs { return false; }
      var current := jobs[jobID];
      Seen(jobID);
      hide View, Valid, Sound, Persisted, CloneCallback, Job.Record, IsExpired;
      if current.Status == Canceled { return false; }
      if IsExpired(current.Record(), t1) {
        current.MarkExpired(t2);
        Rewritten(jobID);
        PersistLocked();
        return false;
      }
      ghost var j := current.Record();
      current.MarkRunning(30, t2);
      Rewritten(jobID);
      ViewLetters();
      assert View() == ChangeState(old(View()), jobID, BeginChange(j, t1, t2));
      PersistLocked();
      execute := true;
    }

    /** The last critical section of the worker: whether to enqueue the job again. */
    method FinishJob(jobID: string, outcome: Outcome, t1: Time, t2: Time) returns (retry: bool)
      requires Valid()
      modifies this`dlq, Objects(), store
      ensures Valid() && View() == FinishState(old(View()), jobID, outcome, t1, t2)
      ensures retry == FinishRetries(old(View()), jobID, outcome, t1)
      ensures old(Persisted()) ==> Persisted()
    {
      match outcome
      case AsyncAccepted => FinishAsync(jobID, t1, t2); retry := false;
      case Error(message) => retry := FinishError(jobID, message, t1);
      case Success(result) => FinishSuccess(jobID, result, t1); retry := false;
    }

    method FinishAsync(jobID: string, t1: Time, t2: Time)
      requires Valid()
      modifies Objects(), store
      ensures Valid() && View() == FinishState(old(View()), jobID, AsyncAccepted, t1, t2)
      ensures old(Persisted()) ==> Persisted()
    {
      if jobID !in jobs { return; }
      var current := jobs[jobID];
      Seen(jobID);
      hide View, Valid, Sound, Persisted, CloneCallback, Job.Record, IsExpired;
      if current.Status != Canceled && !IsExpired(current.Record(), t1) {
        current.MarkRunning(60, t2);
        Rewritten(jobID);
        PersistLocked();
      }
    }

    /** Noting the error first and settling it afterwards is finishing with the error. */
    lemma NotedThenSettled(st: State, id: string, message: string, now: Time)
      requires id in st.jobs
      ensures var noted := ChangeState(st, id, Change(st.jobs[id].(lastError := Some(message), updatedAt := now), KeepLetter));
              && FinishState(noted, id, Error(message), now, now) == FinishState(st, id, Error(message), now, now)
              && FinishRetries(noted, id, Error(message), now) == FinishRetries(st, id, Error(message), now)
              && (st.jobs[id].status == Canceled ==> FinishState(st, id, Error(message), now, now) == noted)
    {}

    method FinishError(jobID: string, message: string, now: Time) returns (retry: bool)
      requires Valid()
      modifies this`dlq, Objects(), store
      ensures Valid() && View() == FinishState(old(View()), jobID, Error(message), now, now)
      ensures retry == FinishRetries(old(View()), jobID, Error(message), now)
      ensures old(Persisted()) ==> Persisted()
    {
      if jobID !in jobs { return false; }
      var current := jobs[jobID];
      Seen(jobID);
      NotedThenSettled(View(), jobID, message, now);
      hide View, Valid, Sound, Persisted, CloneCallback, Job.Record, FinishState;
      current.NoteError(message, now);
      Rewritten(jobID);
      ViewLetters();
      if current.Status == Canceled {
        PersistLocked();
        return false;
      }
      retry := SettleError(jobID, current, message, now);
    }

    lemma SettledChange(j: JobRecord, message: string, now: Time)
      requires j.status != Canceled && j.lastError == Some(message) && j.updatedAt == now
      ensures FinishChange(j, Error(message), now, now) ==
              if IsExpired(j, now) then Change(Jobs.MarkExpired(j, now), KeepLetter)
              else if j.attempt < j.maxAttempts
              then Change(j.(status := Queued, progress := 0, attempt := j.attempt + 1), KeepLetter)
              else
                var f := j.(status := Failed, progress := 100, lastError := Some(message), updatedAt := now);
                Change(f, PutLetter(LetterFor(f, MaxAttemptsExhausted, now, message)))
    {}

    /** Expires, retries or fails a job whose error has been noted. */
    method SettleError(jobID: string, current: Job, message: string, now: Time) returns (retry: bool)
      requires Valid() && jobID in jobs && jobs[jobID] == current && current.Status != Canceled
      requires current.LastError == Some(message) && current.UpdatedAt == now
      modifies this`dlq, current, store
      ensures Valid() && View() == FinishState(old(View()), jobID, Error(message), now, now)
      ensures retry == FinishRetries(old(View()), jobID, Error(message), now)
      ensures Persisted()
    {
      Seen(jobID);
      SettledChange(current.Record(), message, now);
      ghost var j := current.Record();
      hide View, Valid, Sound, Persisted, CloneCallback, IsExpired, FinishChange, Job.Record;
      if IsExpired(current.Record(), now) {
        current.MarkExpired(now);
        retry := false;
      } else if current.Attempt < current.MaxAttempts {
        current.MarkRetried();
        retry := true;
      } else {
        current.MarkFailed(Some(message), now);
        dlq := dlq[jobID := LetterFor(current.Record(), MaxAttemptsExhausted, now, message)];
        retry := false;
      }
      Rewritten(jobID);
      ViewLetters();
      assert View() == ChangeState(old(View()), jobID, FinishChange(j, Error(message), now, now));
      PersistLocked();
    }

    method FinishSuccess(jobID: string, result: ExpertResult, now: Time)
      requires Valid()
      modifies this`dlq, Objects(), store
      ensures Valid() && View() == FinishState(old(View()), jobID, Success(result), now, now)
      ensures old(Persisted()) ==> Persisted()
    {
      if jobID !in jobs { return; }
      var current := jobs[jobID];
      Seen(jobID);
      hide View, Valid, Sound, Persisted, CloneCallback, Job.Record, IsExpired;
      if current.Status == Canceled {
        PersistLocked();
        return;
      }
      if IsExpired(current.Record(), now) {
        current.MarkExpired(now);
        Rewritten(jobID);
        PersistLocked();
        return;
      }
      ghost var j := current.Record();
      current.MarkSucceeded(Some(result), now);
      dlq := dlq - {jobID};
      Rewritten(jobID);
      ViewLetters();
      assert View() == ChangeState(old(View()), jobID, FinishChange(j, Success(result), now, now));
      PersistLocked();
    }

    // ---- restart -----------------------------------------------------------------------

    static predicate OwnIds(state: State) {
      forall id :: id in state.jobs ==> state.jobs[id].id == id
    }

    static method RestoreJob(stored: JobRecord, cfg: Config) returns (restored: Job)
      ensures fresh(restored) && restored.Record() == Restore(stored, cfg)
    {
      restored := new Job(stored.(callback := CloneCallback(stored.callback)));
      if restored.MaxAttempts <= 0 { restored.MaxAttempts := cfg.maxAttempts; }
      if restored.Status == Running {
        restored.Status := Queued;
        restored.Progress := 0;
      }
    }

    static method RestoreJobs(stored: map<string, JobRecord>, cfg: Config) returns (restored: map<string, Job>, pending: seq<string>)
      ensures restored.Keys == stored.Keys
      ensures forall id :: id in restored ==> fresh(restored[id]) && restored[id].Record() == Restore(stored[id], cfg)
      ensures forall a, b :: a in restored && b in restored && a != b ==> restored[a] != restored[b]
      ensures forall id :: multiset(pending)[id] == if id in stored && Restore(stored[id], cfg).status == Queued then 1 else 0
    {
      hide CloneCallback, Restore, Job.Record;
      restored, pending := map[], [];
      var todo := stored.Keys;
      while todo != {}
        invariant todo <= stored.Keys && restored.Keys == stored.Keys - todo
        invariant forall id :: id in restored ==>
                    fresh(restored[id]) && allocated(restored[id]) && restored[id].Record() == Restore(stored[id], cfg)
        invariant forall a, b :: a in restored && b in restored && a != b ==> restored[a] != restored[b]
        invariant forall id :: multiset(pending)[id] ==
                    if id in restored && Restore(stored[id], cfg).status == Queued then 1 else 0
        decreases todo
      {
        var id :| id in todo;
        var j := RestoreJob(stored[id], cfg);
        StatusOf(j);
        if j.Status == Queued { pending := pending + [id]; }
        restored := restored[id := j];
        todo := todo - {id};
      }
    }

    static lemma StatusOf(j: Job)
      ensures j.Record().status == j.Status
    {}

    /**
     * Loads the snapshot into a fresh process and enqueues what is pending, in some order. The worker is not
     * running yet, so what does not fit into the channel is lost.
     */
    method LoadState() returns (pending: seq<string>)
      requires ConfigOk(cfg) && queue.size == cfg.queueSize && queue.ch == [] && !queue.closed
      modifies this, store, queue
      ensures Sound() && View() == Jobs.LoadState(old(store.saved), cfg)
      ensures OwnIds(old(store.saved)) ==> Valid()
      ensures multiset(pending) == multiset(PendingIds(View()))
      ensures store.saved == if pending == [] then old(store.saved) else View()
      ensures !queue.closed && queue.ch == if |pending| <= queue.size then pending else pending[..queue.size]
    {
      hide Restore, CloneCallback, PendingIds, Jobs.LoadState, Job.Record, View, Valid, Sound;
      pending := LoadMaps();
      if |pending| > 0 {
        PersistLocked();
        label persisted:
        EnqueueAll(pending);
        JobsUnchanged@persisted();
      }
    }

    method LoadMaps() returns (pending: seq<string>)
      requires ConfigOk(cfg) && queue.size == cfg.queueSize
      modifies this
      ensures Sound() && View() == Jobs.LoadState(store.saved, cfg)
      ensures OwnIds(store.saved) ==> Valid()
      ensures multiset(pending) == multiset(PendingIds(View()))
    {
      hide Restore, CloneCallback, Job.Record, View, Valid, Sound, OwnIds;
      var state := store.Load();
      var restored;
      restored, pending := RestoreJobs(state.jobs, cfg);
      nextID, jobs := state.nextID, restored;
      idem := CopyMap(state.idempotency);
      dlq := CopyMap(state.deadLetters);
      Loaded(state);
      forall id ensures multiset(pending)[id] == multiset(PendingIds(View()))[id] {}
    }

    /** Nobody dequeues meanwhile. */
    method EnqueueAll(ids: seq<string>)
      requires queue.ch == [] && !queue.closed
      modifies queue
      ensures !queue.closed && queue.ch == if |ids| <= queue.size then ids else ids[..queue.size]
    {
      var i := 0;
      while i < |ids|
        invariant 0 <= i <= |ids| && !queue.closed
        invariant queue.ch == if i <= queue.size then ids[..i] else ids[..queue.size]
      {
        Enqueue(ids[i], false);
        i := i + 1;
      }
    }

    lemma Loaded(state: State)
      requires ConfigOk(cfg) && queue.size == cfg.queueSize
      requires nextID == state.nextID && idem == state.idempotency && dlq == state.deadLetters && jobs.Keys == state.jobs.Keys
      requires forall id :: id in jobs ==> jobs[id].Record() == Restore(state.jobs[id], cfg)
      requires forall a, b :: a in jobs && b in jobs && a != b ==> jobs[a] != jobs[b]
      ensures Sound() && View() == Jobs.LoadState(state, cfg)
      ensures OwnIds(state) ==> Valid()
    {
      forall id | id in jobs
        ensures jobs[id].ID == state.jobs[id].id && CloneCallback(jobs[id].Callback) == jobs[id].Callback {
        CloneCallbackIdempotent(state.jobs[id].callback);
      }
      hide Restore, Job.Record, CloneCallback;
      assert View().jobs == Jobs.LoadState(state, cfg).jobs;
    }

    // ---- metrics ----------------------------------------------------------------------------

    method MetricsSnapshot() returns (out: Snapshot)
      requires Valid()
      ensures out.queueDepth == |queue.ch| && out.jobsTotal == |jobs| && out.dlqTotal == |dlq|
      ensures Counts(View().jobs, View().jobs.Keys, out.byStatus, out.byTenant)
    {
      var byStatus, byTenant := CountJobs();
      out := Snapshot(queue.Depth(), |jobs|, |dlq|, byStatus, byTenant);
    }

    method CountJobs() returns (byStatus: map<Status, int>, byTenant: map<string, TenantMetrics>)
      requires Valid()
      ensures Counts(View().jobs, View().jobs.Keys, byStatus, byTenant)
    {
      hide Counts, Sum, TenantKey, AddToTenant, CloneCallback;
      ghost var all := View().jobs;
      NothingCounted(all);
      assert jobs.Keys - jobs.Keys == {};
      byStatus := map[Queued := 0, Running := 0, Succeeded := 0, Failed := 0, Canceled := 0, Expired := 0];
      byTenant := map[];
      var todo := jobs.Keys;
      while todo != {}
        invariant todo <= jobs.Keys
        invariant Counts(all, jobs.Keys - todo, byStatus, byTenant)
        decreases todo
      {
        var id :| id in todo;
        var item := jobs[id].Record();
        CountsMore(all, jobs.Keys - todo, byStatus, byTenant, id);
        assert jobs.Keys - todo + {id} == jobs.Keys - (todo - {id});
        byStatus := byStatus[item.status := byStatus[item.status] + 1];
        var key := TenantKey(item);
        byTenant := byTenant[key := AddToTenant(TenantAt(byTenant, key), item)];
        todo := todo - {id};
      }
      assert jobs.Keys - todo == View().jobs.Keys && all == View().jobs;
    }

    // ---- the worker ---------------------------------------------------------------------------

    /** One item of the worker loop with nobody else acting: begin, execute, finish, enqueue again. */
    method ProcessBriefJob(jobID: string, it: Item, late: bool)
      requires Valid()
      modifies this`dlq, Objects(), store, queue
      ensures Valid() && View() == ProcessState(old(View()), jobID, it)
      ensures queue.closed == old(queue.closed)
      ensures queue.ch == old(queue.ch) + if ProcessRetries(old(View()), jobID, it) && old(Accepts(late)) then [jobID] else []
      ensures old(Persisted()) ==> Persisted()
    {
      hide View, Valid, Sound, Persisted, BeginState, FinishState;
      var execute := BeginJob(jobID, it.t1, it.t2);
      if execute {
        var retry := FinishJob(jobID, it.outcome, it.t3, it.t4);
        if retry { Enqueue(jobID, late); }
      }
    }

    /** The worker loop run until the channel is empty; `n` items were handled. */
    method WorkerLoop(items: nat -> Item) returns (n: nat)
      requires Valid() && Drainable(View(), queue.ch) && |queue.ch| <= queue.size && !queue.closed
      requires forall i: nat :: !items(i).outcome.AsyncAccepted?
      modifies this`dlq, Objects(), store, queue
      ensures Valid() && queue.ch == [] && JobInvariants.StateOk(View())
      ensures forall id :: id in View().jobs ==> Terminal(View().jobs[id].status)
      ensures View().jobs.Keys == old(View()).jobs.Keys
      ensures old(WorkOf(View(), queue.ch)) >= n
      ensures old(Persisted()) ==> Persisted()
    {
      hide View, Valid, Sound, Persisted, Drainable, WorkOf, ProcessState, JobInvariants.StateOk;
      n := 0;
      while |queue.ch| > 0
        invariant Valid() && Drainable(View(), queue.ch) && |queue.ch| <= queue.size && !queue.closed
        invariant View().jobs.Keys == old(View()).jobs.Keys
        invariant n + WorkOf(View(), queue.ch) == old(WorkOf(View(), queue.ch))
        invariant old(Persisted()) ==> Persisted()
        decreases WorkOf(View(), queue.ch)
      {
        ghost var st, ch := View(), queue.ch;
        WorkBounds(st, ch);
        var item := queue.Dequeue();
        ProcessBriefJob(item.value, items(n), false);
        ProcessOne(st, ch, items(n));
        n := n + 1;
      }
      WorkBounds(View(), queue.ch);
      Drained(View());
    }
  }

  // ---- the worker loop on values --------------------------------------------------------------

  function ProcessState(st: State, id: string, it: Item): State {
    var begun := BeginState(st, id, it.t1, it.t2);
    if BeginExecutes(st, id, it.t1) then FinishState(begun, id, it.outcome, it.t3, it.t4) else begun
  }

  predicate ProcessRetries(st: State, id: string, it: Item) {
    BeginExecutes(st, id, it.t1) && FinishRetries(BeginState(st, id, it.t1, it.t2), id, it.outcome, it.t3)
  }

  /** No job is running, and every queued job has its token in the channel. */
  ghost predicate Drainable(st: State, ch: seq<string>) {
    && JobInvariants.StateOk(st)
    && (forall id :: id in ch ==> id in st.jobs)
    && (forall id :: id in st.jobs && st.jobs[id].status == Queued ==> id in ch)
    && (forall id :: id in st.jobs ==> st.jobs[id].status != Running)
  }

  lemma Drained(st: State)
    requires Drainable(st, [])
    ensures JobInvariants.StateOk(st) && forall id :: id in st.jobs ==> Terminal(st.jobs[id].status)
  {}

  lemma WorkBounds(st: State, ch: seq<string>)
    requires Drainable(st, ch)
    ensures WorkOf(st, ch) >= |ch|
  {
    forall id | id in st.jobs ensures AttemptsLeft(st)(id) >= 0 {
      assert JobInvariants.RecordOk(st.jobs[id], JobInvariants.LetterOf(st, id));
    }
    SumNonNegative(st.jobs.Keys, AttemptsLeft(st));
  }

  lemma ProcessKeepsOk(st: State, id: string, it: Item)
    requires JobInvariants.StateOk(st) && id in st.jobs
    ensures JobInvariants.StateOk(ProcessState(st, id, it))
  {
    var j, letter := st.jobs[id], JobInvariants.LetterOf(st, id);
    var begun := BeginState(st, id, it.t1, it.t2);
    JobInvariants.WorkerChangesOk(j, letter, it.t1, it.t2);
    JobInvariants.ChangeKeepsOk(st, id, BeginChange(j, it.t1, it.t2));
    JobInvariants.WorkerChangesOk(begun.jobs[id], JobInvariants.LetterOf(begun, id), it.t3, it.t4);
    JobInvariants.ChangeKeepsOk(begun, id, FinishChange(begun.jobs[id], it.outcome, it.t3, it.t4));
    hide JobInvariants.StateOk, BeginChange, FinishChange, JobInvariants.ChangeOk;
  }

  /** Only the handled job changes; it ends terminal, or queued with one attempt more. */
  lemma ProcessJob(st: State, id: string, it: Item)
    requires JobInvariants.StateOk(st) && id in st.jobs && !it.outcome.AsyncAccepted?
    ensures var st' := ProcessState(st, id, it);
            && id in st'.jobs && st'.jobs == st.jobs[id := st'.jobs[id]]
            && st'.jobs[id].maxAttempts == st.jobs[id].maxAttempts
            && if ProcessRetries(st, id, it)
               then st'.jobs[id].status == Queued && st'.jobs[id].attempt == st.jobs[id].attempt + 1
               else Terminal(st'.jobs[id].status) && st'.jobs[id].attempt == st.jobs[id].attempt
  {
    hide JobInvariants.StateOk;
  }

  lemma ProcessWork(st: State, ch: seq<string>, it: Item)
    requires Drainable(st, ch) && ch != [] && !it.outcome.AsyncAccepted?
    ensures var st' := ProcessState(st, ch[0], it);
            var ch' := ch[1..] + if ProcessRetries(st, ch[0], it) then [ch[0]] else [];
            st'.jobs.Keys == st.jobs.Keys && WorkOf(st', ch') == WorkOf(st, ch) - 1
  {
    hide ProcessState, ProcessRetries, JobInvariants.StateOk, Sum;
    var id := ch[0];
    ProcessJob(st, id, it);
    SumChange(st.jobs.Keys, AttemptsLeft(st), AttemptsLeft(ProcessState(st, id, it)), id);
  }

  /** Handling one item leaves the rest drainable and lowers the work by exactly one. */
  lemma ProcessOne(st: State, ch: seq<string>, it: Item)
    requires Drainable(st, ch) && ch != [] && !it.outcome.AsyncAccepted?
    ensures var st' := ProcessState(st, ch[0], it);
            var ch' := ch[1..] + if ProcessRetries(st, ch[0], it) then [ch[0]] else [];
            && Drainable(st', ch') && st'.jobs.Keys == st.jobs.Keys && WorkOf(st', ch') == WorkOf(st, ch) - 1
  {
    hide ProcessState, ProcessRetries, JobInvariants.StateOk, WorkOf;
    var id := ch[0];
    ProcessWork(st, ch, it);
    ProcessKeepsOk(st, id, it);
    ProcessJob(st, id, it);
    forall x | x in ch && x != id ensures x in ch[1..] {
      var i :| 0 <= i < |ch| && ch[i] == x;
      assert ch[1..][i - 1] == x;
    }
  }
}
