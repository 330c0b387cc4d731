/** Webhook delivery: one record per attempt, exponential backoff with jitter, and a bound on the waiting. */
module Delivery {
  import opened Text

  /** Nanoseconds. */
  type Time = int

  datatype Config = Config(maxAttempts: int, initialBackoff: int, maxBackoff: int, jitterFraction: real)

  /** What the options admit. */
  predicate ConfigOk(c: Config) {
    c.maxAttempts >= 1 && c.maxBackoff >= 0 && c.jitterFraction >= 0.0
  }

  datatype Failure = Failure(message: string, nonRetryable: bool)

  datatype AttemptResult = AttemptResult(statusCode: int, duration: int, err: Option<Failure>)

  /** What the outside answers to the k-th attempt: clock, HTTP, random number in [0, 1), interrupted sleep. */
  datatype World = World(
    now: nat -> Time, attempt: nat -> AttemptResult, random: nat -> real, interrupted: nat -> Option<string>)

  ghost predicate WorldOk(w: World) {
    forall k: nat :: 0.0 <= w.random(k) < 1.0
  }

  datatype Event = Event(id: string, kind: string, jobID: string, payload: Option<string>)

  datatype DeliveryRecord = DeliveryRecord(
    deliveryID: string, eventID: string, eventType: string, jobID: string, callbackURL: string,
    attempt: nat, maxAttempts: int, success: bool, httpStatus: Option<int>, error: Option<string>,
    requestedAt: Time, durationMs: int, nextRetryAt: Option<Time>, payload: string)

  /** `Delivered` is the nil error. */
  datatype Outcome = Delivered | MarshalFailed | RetryCanceled(cause: string) | GaveUp(maxAttempts: int, lastErr: Failure)

  /** Products are kept folded in proofs. */
  function Times(x: real, y: real): real {
    x * y
  }

  // ---- backoff ---------------------------------------------------------------------------

  function Pow2(n: nat): nat {
    if n == 0 then 1 else 2 * Pow2(n - 1)
  }

  function Base(c: Config): nat {
    if c.initialBackoff < 0 then 0 else c.initialBackoff
  }

  function Capped(c: Config, attempt: nat): int
    requires attempt >= 1
  {
    var backoff := Base(c) * Pow2(attempt - 1);
    if c.maxBackoff > 0 && backoff > c.maxBackoff then c.maxBackoff else backoff
  }

  function Backoff(c: Config, attempt: nat, r: real): int
    requires attempt >= 1
  {
    var backoff := Capped(c, attempt);
    if backoff <= 0 || c.jitterFraction <= 0.0 then backoff
    else Times(backoff as real, Jitter(c, r)).Floor
  }

  /** The longest single wait. */
  function Longest(c: Config): real {
    Times(c.maxBackoff as real, 1.0 + c.jitterFraction)
  }

  lemma CappedBounds(c: Config, attempt: nat)
    requires ConfigOk(c) && attempt >= 1
    ensures 0 <= Capped(c, attempt) <= Base(c) * Pow2(attempt - 1)
    ensures c.maxBackoff > 0 ==> Capped(c, attempt) <= c.maxBackoff
  {
    assert Base(c) * Pow2(attempt - 1) >= 0;
  }

  /** The factor the drawn number stands for, between 0 and 1 + jitterFraction and at least 1 - jitterFraction. */
  function Jitter(c: Config, r: real): real {
    var jitter := 1.0 + Times(r * 2.0 - 1.0, c.jitterFraction);
    if jitter < 0.0 then 0.0 else jitter
  }

  lemma JitterBounds(c: Config, r: real)
    requires ConfigOk(c) && 0.0 <= r < 1.0
    ensures 0.0 <= Jitter(c, r)
    ensures 1.0 - c.jitterFraction <= Jitter(c, r) <= 1.0 + c.jitterFraction
  {
    Scale(r * 2.0 - 1.0, c.jitterFraction);
    hide Times;
  }

  /** Jitter stays within its fraction on both sides, up to rounding down. */
  lemma BackoffBounds(c: Config, attempt: nat, r: real)
    requires ConfigOk(c) && attempt >= 1 && 0.0 <= r < 1.0
    ensures 0 <= Backoff(c, attempt, r)
    ensures Backoff(c, attempt, r) as real <= Times(Capped(c, attempt) as real, 1.0 + c.jitterFraction)
    ensures Backoff(c, attempt, r) as real > Times(Capped(c, attempt) as real, 1.0 - c.jitterFraction) - 1.0
    ensures c.maxBackoff > 0 ==> Backoff(c, attempt, r) as real <= Longest(c)
  {
    CappedBounds(c, attempt);
    JitterBounds(c, r);
    hide Capped, Times, Jitter;
    var b, f := Capped(c, attempt) as real, c.jitterFraction;
    TimesGrows(b, 1.0 - f, Jitter(c, r));
    TimesGrows(b, Jitter(c, r), 1.0 + f);
    TimesGrows(b, 0.0, Jitter(c, r));
    TimesUnit(b, f);
    if c.maxBackoff > 0 { TimesGrowsLeft(b, c.maxBackoff as real, 1.0 + f); }
    FloorBounds(Times(b, Jitter(c, r)));
  }

  function Under(cap: int, x: int): int {
    if cap > 0 && x > cap then cap else x
  }

  /** Without jitter the first wait is the initial backoff, each further one twice the one before, all under the cap. */
  lemma WaitsDouble(c: Config, k: nat, r: real, s: real)
    requires ConfigOk(c) && c.jitterFraction == 0.0 && k >= 1
    ensures Backoff(c, 1, r) == Under(c.maxBackoff, if c.initialBackoff < 0 then 0 else c.initialBackoff)
    ensures Backoff(c, k + 1, s) == Under(c.maxBackoff, 2 * Backoff(c, k, r))
  {
    var x, y := Base(c) * Pow2(k - 1), Base(c) * Pow2(k);
    assert Pow2(0) == 1 && y == 2 * x;
    hide Base;
  }

  /** Jitter multiplies that wait by 1 + (2r - 1) * jitterFraction, not below 0, and rounds down. */
  lemma JitterExact(c: Config, k: nat, r: real)
    requires ConfigOk(c) && k >= 1 && 0.0 <= r < 1.0
    ensures var factor := 1.0 + (2.0 * r - 1.0) * c.jitterFraction;
            var exact := Times(Backoff(c.(jitterFraction := 0.0), k, r) as real, if factor > 0.0 then factor else 0.0);
            exact - 1.0 < Backoff(c, k, r) as real <= exact
  {
    var plain, factor := c.(jitterFraction := 0.0), 1.0 + (2.0 * r - 1.0) * c.jitterFraction;
    CappedBounds(c, k);
    assert Capped(plain, k) == Capped(c, k) == Backoff(plain, k, r);
    assert Jitter(c, r) == if factor > 0.0 then factor else 0.0;
    assert c.jitterFraction == 0.0 ==> factor == 1.0;
    hide Capped, Jitter;
    TimesGrows(Capped(c, k) as real, 0.0, Jitter(c, r));
    assert Times(Capped(c, k) as real, 0.0) == 0.0 && Times(Capped(c, k) as real, 1.0) == Capped(c, k) as real;
    assert Capped(c, k) == 0 ==> Times(Capped(c, k) as real, Jitter(c, r)) == 0.0;
    FloorBounds(Times(Capped(c, k) as real, Jitter(c, r)));
    hide Times;
  }

  lemma FloorBounds(x: real)
    requires x >= 0.0
    ensures 0 <= x.Floor && x - 1.0 < x.Floor as real <= x
  {}

  lemma Scale(x: real, f: real)
    requires -1.0 <= x <= 1.0 && f >= 0.0
    ensures -f <= Times(x, f) <= f
  {
    TimesGrowsLeft(-1.0, x, f);
    TimesGrowsLeft(x, 1.0, f);
  }

  lemma TimesGrows(b: real, x: real, y: real)
    requires b >= 0.0 && x <= y
    ensures Times(b, x) <= Times(b, y)
  {}

  lemma TimesGrowsLeft(x: real, y: real, b: real)
    requires b >= 0.0 && x <= y
    ensures Times(x, b) <= Times(y, b)
  {}

  lemma TimesUnit(b: real, f: real)
    requires b >= 0.0 && f >= 0.0
    ensures Times(b, 0.0) == 0.0
    ensures Times(b, 1.0 - f) <= b <= Times(b, 1.0 + f)
  {
    assert Times(b, 1.0) == b;
    TimesGrows(b, 1.0 - f, 1.0);
    TimesGrows(b, 1.0, 1.0 + f);
  }

  // ---- the trace on values ----------------------------------------------------------------

  predicate Retryable(c: Config, w: World, k: nat) {
    w.attempt(k).err.Some? && k < c.maxAttempts && !w.attempt(k).err.value.nonRetryable
  }

  /** The attempt the loop stops after, counting from `k`. */
  function LastFrom(c: Config, w: World, k: nat): (n: nat)
    ensures n >= k
    decreases c.maxAttempts - k
  {
    if Retryable(c, w, k) && w.interrupted(k).None? then LastFrom(c, w, k + 1) else k
  }

  function Wait(c: Config, w: World, k: nat): int
    requires k >= 1
  {
    if Retryable(c, w, k) then Backoff(c, k, w.random(k)) else 0
  }

  function RecordOf(c: Config, w: World, url: string, event: Event, payload: string, k: nat): DeliveryRecord
    requires k >= 1
  {
    var result := w.attempt(k);
    DeliveryRecord(
      event.id + "." + Decimal(k), event.id, event.kind, event.jobID, url,
      k, c.maxAttempts, result.err.None?,
      if result.statusCode > 0 then Some(result.statusCode) else None,
      if result.err.None? then None else Some(result.err.value.message),
      w.now(k), result.duration / 1_000_000,
      if Retryable(c, w, k) then Some(w.now(k) + Wait(c, w, k)) else None,
      payload)
  }

  function RecordsTo(c: Config, w: World, url: string, event: Event, payload: string, n: nat): (r: seq<DeliveryRecord>)
    ensures |r| == n
    ensures forall i :: 0 <= i < n ==> r[i] == RecordOf(c, w, url, event, payload, i + 1)
  {
    if n == 0 then [] else RecordsTo(c, w, url, event, payload, n - 1) + [RecordOf(c, w, url, event, payload, n)]
  }

  function WaitsTo(c: Config, w: World, n: nat): (r: seq<int>)
    ensures |r| == n
    ensures forall i :: 0 <= i < n ==> r[i] == Backoff(c, i + 1, w.random(i + 1))
  {
    if n == 0 then [] else WaitsTo(c, w, n - 1) + [Backoff(c, n, w.random(n))]
  }

  lemma LastNext(c: Config, w: World, k: nat)
    requires k <= c.maxAttempts
    ensures Retryable(c, w, k) && w.interrupted(k).None? ==>
              LastFrom(c, w, k) == LastFrom(c, w, k + 1) && k + 1 <= LastFrom(c, w, k)
    ensures !(Retryable(c, w, k) && w.interrupted(k).None?) ==> LastFrom(c, w, k) == k
  {}

  /** The trace grows by one record, and by one wait once that is slept. */
  lemma TraceNext(c: Config, w: World, url: string, event: Event, payload: string, k: nat)
    requires k >= 1
    ensures RecordsTo(c, w, url, event, payload, k)
            == RecordsTo(c, w, url, event, payload, k - 1) + [RecordOf(c, w, url, event, payload, k)]
    ensures WaitsTo(c, w, k) == WaitsTo(c, w, k - 1) + [Backoff(c, k, w.random(k))]
  {
    hide RecordOf, Backoff;
  }

  lemma Associative<T>(x: seq<T>, y: seq<T>, z: seq<T>)
    ensures (x + y) + z == x + (y + z)
  {}

  /** How often the loop that stops after attempt `n` has slept. */
  function Sleeps(c: Config, w: World, n: nat): nat
    requires n >= 1
  {
    if Retryable(c, w, n) then n else n - 1
  }

  function OutcomeAt(c: Config, w: World, n: nat): Outcome {
    var err := w.attempt(n).err;
    if err.None? then Delivered
    else if Retryable(c, w, n) && w.interrupted(n).Some? then RetryCanceled(w.interrupted(n).value)
    else GaveUp(c.maxAttempts, err.value)
  }

  // ---- the dispatcher ------------------------------------------------------------------------

  class RecordStore {
    var records: seq<DeliveryRecord>

    constructor ()
      ensures records == []
    {
      records := [];
    }

    method Write(record: DeliveryRecord)
      modifies this
      ensures records == old(records) + [record]
    {
      records := records + [record];
    }
  }

  class Sleeper {
    var waits: seq<int>

    constructor ()
      ensures waits == []
    {
      waits := [];
    }

    method Sleep(d: int, interrupted: Option<string>) returns (err: Option<string>)
      modifies this
      ensures err == interrupted && waits == old(waits) + [d]
    {
      waits := waits + [d];
      err := interrupted;
    }
  }

  class Dispatcher {
    const cfg: Config
    const store: RecordStore
    const sleeper: Sleeper

    constructor (cfg: Config, store: RecordStore, sleeper: Sleeper)
      ensures this.cfg == cfg && this.store == store && this.sleeper == sleeper
    {
      this.cfg, this.store, this.sleeper := cfg, store, sleeper;
    }

    method ComputeBackoff(attempt: nat, r: real) returns (d: int)
      requires ConfigOk(cfg) && attempt >= 1
      ensures d == Backoff(cfg, attempt, r)
    {
      var base := cfg.initialBackoff;
      if base < 0 { base := 0; }
      var backoff := base * Pow2(attempt - 1);
      if cfg.maxBackoff > 0 && backoff > cfg.maxBackoff { backoff := cfg.maxBackoff; }
      if backoff <= 0 || cfg.jitterFraction <= 0.0 { return backoff; }
      var jitter := 1.0 + (r * 2.0 - 1.0) * cfg.jitterFraction;
      if jitter < 0.0 { jitter := 0.0; }
      d := (backoff as real * jitter).Floor;
    }

    method Deliver(rawURL: string, event: Event, w: World) returns (outcome: Outcome)
      requires ConfigOk(cfg)
      modifies store, sleeper
      ensures TrimSpace(rawURL) == "" ==>
                outcome == Delivered && store.records == old(store.records) && sleeper.waits == old(sleeper.waits)
      ensures TrimSpace(rawURL) != "" && event.payload.None? ==>
                outcome == MarshalFailed && store.records == old(store.records) && sleeper.waits == old(sleeper.waits)
      ensures TrimSpace(rawURL) != "" && event.payload.Some? ==>
                var n := LastFrom(cfg, w, 1);
                && outcome == OutcomeAt(cfg, w, n)
                && store.records == old(store.records) + RecordsTo(cfg, w, TrimSpace(rawURL), event, event.payload.value, n)
                && sleeper.waits == old(sleeper.waits) + WaitsTo(cfg, w, Sleeps(cfg, w, n))
    {
      hide *;
      var url := TrimSpace(rawURL);
      if url == "" { return Delivered; }
      if event.payload.None? { return MarshalFailed; }
      outcome := AttemptAll(url, event, event.payload.value, w);
    }

    /** The retry loop. */
    method AttemptAll(url: string, event: Event, payload: string, w: World) returns (outcome: Outcome)
      requires ConfigOk(cfg)
      modifies store, sleeper
      ensures var n := LastFrom(cfg, w, 1);
              && outcome == OutcomeAt(cfg, w, n)
              && store.records == old(store.records) + RecordsTo(cfg, w, url, event, payload, n)
              && sleeper.waits == old(sleeper.waits) + WaitsTo(cfg, w, Sleeps(cfg, w, n))
    {
      LastBounds(cfg, w, 1);
      hide RecordOf, Backoff, Decimal, LastFrom, RecordsTo, WaitsTo;
      ghost var sent, slept := store.records, sleeper.waits;
      assert RecordsTo(cfg, w, url, event, payload, 0) == [] && WaitsTo(cfg, w, 0) == [];
      var attempt: nat := 1;
      while attempt <= cfg.maxAttempts
        invariant 1 <= attempt <= LastFrom(cfg, w, 1) <= cfg.maxAttempts
        invariant LastFrom(cfg, w, attempt) == LastFrom(cfg, w, 1)
        invariant store.records == sent + RecordsTo(cfg, w, url, event, payload, attempt - 1)
        invariant sleeper.waits == slept + WaitsTo(cfg, w, attempt - 1)
      {
        LastNext(cfg, w, attempt);
        TraceNext(cfg, w, url, event, payload, attempt);
        Associative(sent, RecordsTo(cfg, w, url, event, payload, attempt - 1), [RecordOf(cfg, w, url, event, payload, attempt)]);
        Associative(slept, WaitsTo(cfg, w, attempt - 1), [Backoff(cfg, attempt, w.random(attempt))]);
        var retry := Attempt(url, event, payload, w, attempt);
        assert store.records == sent + RecordsTo(cfg, w, url, event, payload, attempt);
        var lastErr := w.attempt(attempt).err;
        if lastErr.None? { return Delivered; }
        if attempt == cfg.maxAttempts || lastErr.value.nonRetryable { return GaveUp(cfg.maxAttempts, lastErr.value); }
        var waitErr := sleeper.Sleep(retry, w.interrupted(attempt));
        assert sleeper.waits == slept + WaitsTo(cfg, w, attempt);
        if waitErr.Some? { return RetryCanceled(waitErr.value); }
        attempt := attempt + 1;
      }
      assert false;
    }

    /** One attempt and its record. */
    method Attempt(url: string, event: Event, payload: string, w: World, attempt: nat) returns (retryDelay: int)
      requires ConfigOk(cfg) && 1 <= attempt <= cfg.maxAttempts
      modifies store
      ensures retryDelay == Wait(cfg, w, attempt)
      ensures store.records == old(store.records) + [RecordOf(cfg, w, url, event, payload, attempt)]
    {
      var attemptTime := w.now(attempt);
      var result := w.attempt(attempt);
      var retryable := result.err.Some? && attempt < cfg.maxAttempts && !result.err.value.nonRetryable;
      retryDelay := 0;
      if retryable { retryDelay := ComputeBackoff(attempt, w.random(attempt)); }
      var status := None;
      if result.statusCode > 0 { status := Some(result.statusCode); }
      var errStr := None;
      if result.err.Some? { errStr := Some(result.err.value.message); }
      var nextRetryAt := None;
      if retryable { nextRetryAt := Some(attemptTime + retryDelay); }
      store.Write(DeliveryRecord(
        event.id + "." + Decimal(attempt), event.id, event.kind, event.jobID, url,
        attempt, cfg.maxAttempts, result.err.None?, status, errStr,
        attemptTime, result.duration / 1_000_000, nextRetryAt, payload));
    }
  }

  // ---- what a trace looks like -------------------------------------------------------------------

  lemma {:induction false} LastBounds(c: Config, w: World, k: nat)
    requires k <= c.maxAttempts
    ensures k <= LastFrom(c, w, k) <= c.maxAttempts
    ensures forall i :: k <= i < LastFrom(c, w, k) ==> Retryable(c, w, i) && w.interrupted(i).None?
    ensures var n := LastFrom(c, w, k); !(Retryable(c, w, n) && w.interrupted(n).None?)
    decreases c.maxAttempts - k
  {
    if Retryable(c, w, k) && w.interrupted(k).None? { LastBounds(c, w, k + 1); }
  }

  /**
   * The records of one delivery are numbered 1 .. n with n at most the maximum; every record but the last is a
   * failure to be retried at the time it names; and the outcome is success exactly when the last record is one.
   */
  lemma TraceShape(c: Config, w: World, url: string, event: Event, payload: string)
    requires ConfigOk(c)
    ensures var n := LastFrom(c, w, 1);
            var records := RecordsTo(c, w, url, event, payload, n);
            && 1 <= n <= c.maxAttempts && |records| == n
            && (forall i :: 0 <= i < n ==> records[i].attempt == i + 1)
            && (forall i :: 0 <= i < n - 1 ==>
                  !records[i].success && records[i].error.Some?
                  && records[i].nextRetryAt == Some(records[i].requestedAt + Wait(c, w, i + 1)))
            && (OutcomeAt(c, w, n) == Delivered <==> records[n - 1].success)
            && (OutcomeAt(c, w, n).RetryCanceled? <==> records[n - 1].nextRetryAt.Some?)
            && (OutcomeAt(c, w, n).GaveUp? ==> n == c.maxAttempts || OutcomeAt(c, w, n).lastErr.nonRetryable)
  {
    LastBounds(c, w, 1);
    hide Backoff, Decimal;
  }

  /** A failure that is worth another attempt, when the maximum leaves one. */
  predicate WorthRetrying(c: Config, w: World, k: nat) {
    match w.attempt(k).err
    case None => false
    case Some(failure) => !failure.nonRetryable && k < c.maxAttempts
  }

  /** Attempt `k` is made exactly when all attempts before it were worth retrying and no wait was interrupted. */
  lemma AttemptsExactly(c: Config, w: World, k: nat)
    requires ConfigOk(c) && k >= 1
    ensures k <= LastFrom(c, w, 1) <==> forall i :: 1 <= i < k ==> WorthRetrying(c, w, i) && w.interrupted(i).None?
  {
    LastBounds(c, w, 1);
    var n := LastFrom(c, w, 1);
    assert forall i: nat :: WorthRetrying(c, w, i) <==> Retryable(c, w, i);
    hide LastFrom, Retryable, WorthRetrying;
    if n < k { assert !(WorthRetrying(c, w, n) && w.interrupted(n).None?); }
  }

  /**
   * What a delivery leaves behind. The record of attempt k has the event's ids and its own number, and tells what that
   * attempt answered and when; it names the wait that follows it exactly when one does.
   */
  lemma TraceContents(c: Config, w: World, url: string, event: Event, payload: string, k: nat)
    requires ConfigOk(c) && 1 <= k <= LastFrom(c, w, 1)
    ensures var n := LastFrom(c, w, 1);
            var r, answer := RecordsTo(c, w, url, event, payload, n)[k - 1], w.attempt(k);
            var waits := WaitsTo(c, w, Sleeps(c, w, n));
            && r.deliveryID == event.id + "." + Itoa(k) && r.eventID == event.id
            && r.eventType == event.kind && r.jobID == event.jobID && r.callbackURL == url && r.payload == payload
            && r.attempt == k && r.maxAttempts == c.maxAttempts
            && (r.success <==> answer.err == None) && (r.success <==> r.error == None)
            && (answer.err.Some? ==> r.error == Some(answer.err.value.message))
            && (r.httpStatus == None <==> answer.statusCode <= 0)
            && (answer.statusCode > 0 ==> r.httpStatus == Some(answer.statusCode))
            && r.requestedAt == w.now(k)
            && 1_000_000 * r.durationMs <= answer.duration < 1_000_000 * (r.durationMs + 1)
            && (k <= |waits| <==> WorthRetrying(c, w, k))
            && r.nextRetryAt == if WorthRetrying(c, w, k) then Some(w.now(k) + waits[k - 1]) else None
  {
    LastBounds(c, w, 1);
    hide Backoff, Decimal, LastFrom;
  }

  /** And the outcome tells how attempt n, the last, ended. */
  lemma OutcomeExactly(c: Config, w: World)
    requires ConfigOk(c)
    ensures var n, r := LastFrom(c, w, 1), OutcomeAt(c, w, LastFrom(c, w, 1));
            && (r == Delivered <==> w.attempt(n).err == None)
            && (forall cause :: r == RetryCanceled(cause) <==> WorthRetrying(c, w, n) && w.interrupted(n) == Some(cause))
            && (forall max, failure :: r == GaveUp(max, failure) <==>
                  w.attempt(n).err == Some(failure) && max == c.maxAttempts && (failure.nonRetryable || n == c.maxAttempts))
  {
    LastBounds(c, w, 1);
    hide LastFrom;
  }

  function Total(waits: seq<int>): int {
    if waits == [] then 0 else Total(waits[..|waits| - 1]) + waits[|waits| - 1]
  }

  lemma TimesNext(n: nat, x: real)
    ensures Times((n + 1) as real, x) == Times(n as real, x) + x
    ensures Times(0.0, x) == 0.0
  {}

  /** The first `n` doubled backoffs together, when no cap applies. */
  function Doubled(c: Config, n: nat): int {
    Base(c) * (Pow2(n) - 1)
  }

  lemma DoubledNext(c: Config, n: nat)
    ensures Doubled(c, n + 1) == Doubled(c, n) + Base(c) * Pow2(n)
  {}

  lemma {:induction false} DoubledGrows(c: Config, m: nat, n: nat)
    requires m <= n
    ensures Doubled(c, m) <= Doubled(c, n)
  {
    if m < n {
      DoubledGrows(c, m, n - 1);
      DoubledNext(c, n - 1);
      assert Base(c) * Pow2(n - 1) >= 0;
    }
  }

  lemma TimesAdd(a: int, b: int, x: real)
    ensures Times((a + b) as real, x) == Times(a as real, x) + Times(b as real, x)
  {}

  lemma {:induction false} WaitsBound(c: Config, w: World, n: nat)
    requires ConfigOk(c) && WorldOk(w)
    ensures 0 <= Total(WaitsTo(c, w, n))
    ensures c.maxBackoff > 0 ==> Total(WaitsTo(c, w, n)) as real <= Times(n as real, Longest(c))
    ensures Total(WaitsTo(c, w, n)) as real <= Times(Doubled(c, n) as real, 1.0 + c.jitterFraction)
  {
    if n == 0 {
      TimesNext(0, Longest(c));
      TimesNext(0, 1.0 + c.jitterFraction);
      assert Doubled(c, 0) == 0;
    } else {
      hide Backoff, Longest, Times, Capped, Doubled, Pow2, Base, Total, WaitsTo;
      WaitsBound(c, w, n - 1);
      TotalNext(c, w, n);
      BackoffBounds(c, n, w.random(n));
      CappedBounds(c, n);
      DoubledNext(c, n - 1);
      TimesNext(n - 1, Longest(c));
      TimesAdd(Doubled(c, n - 1), Base(c) * Pow2(n - 1), 1.0 + c.jitterFraction);
      TimesGrowsLeft(Capped(c, n) as real, (Base(c) * Pow2(n - 1)) as real, 1.0 + c.jitterFraction);
    }
  }

  lemma TotalNext(c: Config, w: World, n: nat)
    requires n > 0
    ensures Total(WaitsTo(c, w, n)) == Total(WaitsTo(c, w, n - 1)) + Backoff(c, n, w.random(n))
  {
    hide Backoff;
    assert WaitsTo(c, w, n)[..n - 1] == WaitsTo(c, w, n - 1);
  }

  /**
   * One delivery sleeps at most (maxAttempts - 1) of the longest waits in all when there is a cap, and with or
   * without one at most the doubled backoffs before all its retries, with their jitter.
   */
  lemma TimeBound(c: Config, w: World)
    requires ConfigOk(c) && WorldOk(w)
    ensures var n := LastFrom(c, w, 1);
            var waits := WaitsTo(c, w, Sleeps(c, w, n));
            && (c.maxBackoff > 0 ==> Total(waits) as real <= Times((c.maxAttempts - 1) as real, Longest(c)))
            && Total(waits) as real <= Times(Doubled(c, c.maxAttempts - 1) as real, 1.0 + c.jitterFraction)
  {
    hide Backoff, Times, Longest, Doubled, LastFrom, WaitsTo, Total, Sleeps, Capped, Retryable;
    var m := Sleeps(c, w, LastFrom(c, w, 1));
    SleepsBound(c, w);
    WaitsBound(c, w, m);
    DoubledGrows(c, m, c.maxAttempts - 1);
    if c.maxBackoff > 0 {
      BackoffBounds(c, 1, w.random(1));
      TimesGrowsLeft(m as real, (c.maxAttempts - 1) as real, Longest(c));
    }
    TimesGrowsLeft(Doubled(c, m) as real, Doubled(c, c.maxAttempts - 1) as real, 1.0 + c.jitterFraction);
  }

  lemma SleepsBound(c: Config, w: World)
    requires ConfigOk(c)
    ensures Sleeps(c, w, LastFrom(c, w, 1)) <= c.maxAttempts - 1
  {
    LastBounds(c, w, 1);
    hide LastFrom;
  }
}
