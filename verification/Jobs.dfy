/** The orchestrator's records and the effect of each of its critical sections on them, as functions on values. */
module Jobs {
  import opened Text

  /** Nanoseconds. */
  type Time = int

  datatype Status = Queued | Running | Succeeded | Failed | Canceled | Expired

  predicate Terminal(s: Status) {
    s == Succeeded || s == Failed || s == Canceled || s == Expired
  }

  datatype Signing = Signing(algorithm: string, secretRef: string)
  datatype Callback = Callback(url: string, signing: Option<Signing>)
  datatype ExpertResult = ExpertResult(answer: string, rest: string)

  /** A job: what `job` holds in memory and `jobstore.Job` holds on disk. */
  datatype JobRecord = JobRecord(
    id: string, tenantID: string, projectID: string,
    expertID: string, expertName: string, expertType: string, date: string,
    status: Status, progress: int, submittedAt: Time, updatedAt: Time,
    attempt: int, maxAttempts: int, expiresAt: Option<Time>,
    lastError: Option<string>, result: Option<ExpertResult>, callback: Option<Callback>)

  datatype IdempotencyEntry = IdempotencyEntry(payloadHash: string, jobID: string)

  datatype Reason = RuntimeFailed | MaxAttemptsExhausted

  datatype DeadLetter = DeadLetter(
    jobID: string, tenantID: string, projectID: string, reason: Reason,
    attempts: int, failedAt: Time, lastError: string, finalStatus: Status)

  /** What the mutex guards, and what one saved snapshot holds. */
  datatype State = State(
    nextID: nat,
    jobs: map<string, JobRecord>,
    idempotency: map<string, IdempotencyEntry>,
    deadLetters: map<string, DeadLetter>)

  const EMPTY := State(0, map[], map[], map[])

  datatype Config = Config(maxAttempts: int, jobTTL: int, queueSize: int)

  predicate ConfigOk(cfg: Config) {
    cfg.maxAttempts > 0 && cfg.jobTTL > 0 && cfg.queueSize > 0
  }

  // ---- helpers ----------------------------------------------------------------

  function JobId(n: nat): string {
    "job_" + Decimal(n)
  }

  lemma JobIdInjective(m: nat, n: nat)
    ensures JobId(m) == JobId(n) ==> m == n
  {
    assert JobId(m)[4..] == Decimal(m) && JobId(n)[4..] == Decimal(n);
    DigitsOfDecimal(m);
    DigitsOfDecimal(n);
  }

  function ScopedKey(tenantID: string, projectID: string, raw: string): string {
    var key := TrimSpace(raw);
    if key == "" then "" else tenantID + "::" + projectID + "::" + key
  }

  function CloneCallback(cb: Option<Callback>): Option<Callback> {
    if cb.None? || TrimSpace(cb.value.url) == "" then None
    else Some(Callback(
                TrimSpace(cb.value.url),
                if cb.value.signing.None? then None
                else Some(Signing(TrimSpace(cb.value.signing.value.algorithm), cb.value.signing.value.secretRef))))
  }

  lemma CloneCallbackIdempotent(cb: Option<Callback>)
    ensures CloneCallback(CloneCallback(cb)) == CloneCallback(cb)
  {
    if cb.Some? {
      TrimBare(cb.value.url, IsSpace);
      if cb.value.signing.Some? { TrimBare(cb.value.signing.value.algorithm, IsSpace); }
    }
  }

  function TextOf(e: Option<string>): string {
    if e.None? then "" else e.value
  }

  predicate IsExpired(j: JobRecord, now: Time) {
    j.expiresAt.Some? && now > j.expiresAt.value
  }

  function MarkExpired(j: JobRecord, now: Time): JobRecord {
    j.(status := Expired, updatedAt := now)
  }

  predicate InScope(j: JobRecord, tenantID: string, projectID: string) {
    j.tenantID == tenantID && j.projectID == projectID
  }

  // ---- the effect of one critical section on one job -------------------------------

  datatype LetterEffect = KeepLetter | DropLetter | PutLetter(letter: DeadLetter)

  datatype Change = NoChange | Change(job: JobRecord, letter: LetterEffect)

  function ChangeState(st: State, id: string, c: Change): State {
    match c
    case NoChange => st
    case Change(j, effect) =>
      st.(jobs := st.jobs[id := j], deadLetters := ChangeLetters(st.deadLetters, id, effect))
  }

  function ChangeLetters(letters: map<string, DeadLetter>, id: string, effect: LetterEffect): map<string, DeadLetter> {
    match effect
    case KeepLetter => letters
    case DropLetter => letters - {id}
    case PutLetter(d) => letters[id := d]
  }

  function LetterFor(j: JobRecord, reason: Reason, now: Time, error: string): DeadLetter {
    DeadLetter(j.id, j.tenantID, j.projectID, reason, j.attempt, now, error, j.status)
  }

  // ---- submit -------------------------------------------------------------------

  /** A submit request after validation, with trimmed scope headers. */
  datatype Submission = Submission(
    tenantID: string, projectID: string, idempotencyKey: string, payloadHash: string,
    expertID: string, expertName: string, expertType: string, date: string, callback: Option<Callback>)

  datatype SubmitReply = Accepted(job: JobRecord) | Mismatch | RecordWithoutJob

  function KeyOf(sub: Submission): string {
    ScopedKey(sub.tenantID, sub.projectID, sub.idempotencyKey)
  }

  predicate KnownKey(st: State, sub: Submission) {
    KeyOf(sub) != "" && KeyOf(sub) in st.idempotency
  }

  function NewJob(st: State, cfg: Config, sub: Submission, now: Time): JobRecord {
    JobRecord(
      JobId(st.nextID + 1), sub.tenantID, sub.projectID,
      sub.expertID, sub.expertName, sub.expertType, sub.date,
      Queued, 0, now, now, 1, cfg.maxAttempts, Some(now + cfg.jobTTL),
      None, None, CloneCallback(sub.callback))
  }

  function SubmitAnswer(st: State, cfg: Config, sub: Submission, now: Time): SubmitReply {
    if KnownKey(st, sub) then
      var entry := st.idempotency[KeyOf(sub)];
      if entry.payloadHash != sub.payloadHash then Mismatch
      else if entry.jobID !in st.jobs then RecordWithoutJob
      else Accepted(st.jobs[entry.jobID])
    else Accepted(NewJob(st, cfg, sub, now))
  }

  function SubmitState(st: State, cfg: Config, sub: Submission, now: Time): State {
    if KnownKey(st, sub) then st
    else
      var j := NewJob(st, cfg, sub, now);
      var st1 := ChangeState(st.(nextID := st.nextID + 1), j.id, Change(j, DropLetter));
      if KeyOf(sub) == "" then st1
      else st1.(idempotency := st1.idempotency[KeyOf(sub) := IdempotencyEntry(sub.payloadHash, j.id)])
  }

  // ---- expiry on access, cancel, replay -------------------------------------------

  function ExpireChange(j: JobRecord, now: Time): Change {
    if !Terminal(j.status) && IsExpired(j, now) then Change(MarkExpired(j, now), KeepLetter) else NoChange
  }

  function ExpireState(st: State, id: string, now: Time): State {
    if id in st.jobs then ChangeState(st, id, ExpireChange(st.jobs[id], now)) else st
  }

  datatype Reply = Done | NotFound | InvalidTransition | InvalidInput

  function CancelAnswer(st: State, id: string, tenantID: string, projectID: string): Reply {
    if id !in st.jobs || !InScope(st.jobs[id], tenantID, projectID) then NotFound
    else if Terminal(st.jobs[id].status) then InvalidTransition
    else Done
  }

  function CancelChange(j: JobRecord, now: Time): Change {
    Change(j.(status := Canceled, updatedAt := now), KeepLetter)
  }

  function CancelState(st: State, id: string, tenantID: string, projectID: string, now: Time): State {
    if CancelAnswer(st, id, tenantID, projectID) == Done
    then ChangeState(st, id, CancelChange(st.jobs[id], now))
    else st
  }

  predicate Replayable(s: Status) {
    s == Failed || s == Canceled || s == Expired
  }

  function ReplayAnswer(st: State, id: string, tenantID: string, projectID: string): Reply {
    if id !in st.jobs || !InScope(st.jobs[id], tenantID, projectID) then NotFound
    else if !Replayable(st.jobs[id].status) then InvalidTransition
    else Done
  }

  function ReplayChange(j: JobRecord, now: Time): Change {
    Change(j.(status := Queued, progress := 0, attempt := 1, updatedAt := now, lastError := None), DropLetter)
  }

  function ReplayState(st: State, id: string, tenantID: string, projectID: string, now: Time): State {
    if ReplayAnswer(st, id, tenantID, projectID) == Done
    then ChangeState(st, id, ReplayChange(st.jobs[id], now))
    else st
  }

  // ---- expert events -----------------------------------------------------------------

  datatype ExpertEvent = ExpertEvent(jobID: string, status: string, result: Option<ExpertResult>, error: Option<string>)

  /** The statuses the event handler knows. */
  function EventStatus(raw: string): Option<Status> {
    var status := TrimSpace(raw);
    if status == "succeeded" then Some(Succeeded)
    else if status == "failed" then Some(Failed)
    else if status == "canceled" then Some(Canceled)
    else None
  }

  function EventAnswer(st: State, ev: ExpertEvent): Reply {
    if ev.jobID !in st.jobs then NotFound
    else if Terminal(st.jobs[ev.jobID].status) || EventStatus(ev.status).Some? then Done
    else InvalidInput
  }

  function EventChange(j: JobRecord, status: Option<Status>, ev: ExpertEvent, now: Time): Change {
    if Terminal(j.status) || status.None? then NoChange
    else match status.value
      case Succeeded =>
        Change(j.(status := Succeeded, progress := 100, result := ev.result, lastError := None, updatedAt := now), DropLetter)
      case Failed =>
        var f := j.(status := Failed, progress := 100, lastError := ev.error, updatedAt := now);
        Change(f, PutLetter(LetterFor(f, RuntimeFailed, now, TextOf(ev.error))))
      case Canceled =>
        Change(j.(status := Canceled, progress := 100, updatedAt := now), KeepLetter)
      case _ => NoChange
  }

  function EventState(st: State, ev: ExpertEvent, now: Time): State {
    if ev.jobID in st.jobs
    then ChangeState(st, ev.jobID, EventChange(st.jobs[ev.jobID], EventStatus(ev.status), ev, now))
    else st
  }

  // ---- the worker ------------------------------------------------------------------------

  /** Begin reads the clock at `t1` for the TTL and at `t2` for the timestamp. */
  function BeginChange(j: JobRecord, t1: Time, t2: Time): Change {
    if j.status == Canceled then NoChange
    else if IsExpired(j, t1) then Change(MarkExpired(j, t2), KeepLetter)
    else Change(j.(status := Running, progress := 30, updatedAt := t2), KeepLetter)
  }

  /** The executor is called exactly when this holds. */
  predicate BeginExecutes(st: State, id: string, t1: Time) {
    id in st.jobs && st.jobs[id].status != Canceled && !IsExpired(st.jobs[id], t1)
  }

  function BeginState(st: State, id: string, t1: Time, t2: Time): State {
    if id in st.jobs then ChangeState(st, id, BeginChange(st.jobs[id], t1, t2)) else st
  }

  datatype Outcome = AsyncAccepted | Error(message: string) | Success(result: ExpertResult)

  predicate JobRetries(j: JobRecord, o: Outcome, t1: Time) {
    o.Error? && j.status != Canceled && !IsExpired(j, t1) && j.attempt < j.maxAttempts
  }

  /** After this outcome the worker enqueues the job once more. */
  predicate FinishRetries(st: State, id: string, o: Outcome, t1: Time) {
    id in st.jobs && JobRetries(st.jobs[id], o, t1)
  }

  function FinishChange(j: JobRecord, o: Outcome, t1: Time, t2: Time): Change {
    match o
    case AsyncAccepted =>
      if j.status != Canceled && !IsExpired(j, t1)
      then Change(j.(status := Running, progress := 60, updatedAt := t2), KeepLetter)
      else NoChange
    case Error(message) =>
      var e := j.(lastError := Some(message), updatedAt := t1);
      if j.status == Canceled then Change(e, KeepLetter)
      else if IsExpired(j, t1) then Change(MarkExpired(e, t1), KeepLetter)
      else if j.attempt < j.maxAttempts
      then Change(e.(attempt := j.attempt + 1, status := Queued, progress := 0), KeepLetter)
      else
        var f := e.(status := Failed, progress := 100);
        Change(f, PutLetter(LetterFor(f, MaxAttemptsExhausted, t1, message)))
    case Success(result) =>
      if j.status == Canceled then NoChange
      else if IsExpired(j, t1) then Change(MarkExpired(j, t1), KeepLetter)
      else Change(j.(status := Succeeded, progress := 100, result := Some(result), lastError := None, updatedAt := t1), DropLetter)
  }

  function FinishState(st: State, id: string, o: Outcome, t1: Time, t2: Time): State {
    if id in st.jobs then ChangeState(st, id, FinishChange(st.jobs[id], o, t1, t2)) else st
  }

  // ---- restart ------------------------------------------------------------------------------

  function Restore(j: JobRecord, cfg: Config): JobRecord {
    var j1 := j.(callback := CloneCallback(j.callback));
    var j2 := if j1.maxAttempts <= 0 then j1.(maxAttempts := cfg.maxAttempts) else j1;
    if j2.status == Running then j2.(status := Queued, progress := 0) else j2
  }

  function LoadState(disk: State, cfg: Config): State {
    disk.(jobs := map id | id in disk.jobs :: Restore(disk.jobs[id], cfg))
  }

  /** The jobs a restart has to enqueue again. */
  function PendingIds(st: State): set<string> {
    set id | id in st.jobs && st.jobs[id].status == Queued
  }
}
