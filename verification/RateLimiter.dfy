/** The gateway's per-client token bucket with eviction of idle clients. */
module RateLimiter {
  import opened Text

  /** Seconds. */
  type Instant = real

  datatype BucketValue = BucketValue(tokens: real, last: Instant, lastSeen: Instant)

  /** Tokens per second and bucket size. */
  datatype Limits = Limits(rate: real, burst: int)

  predicate LimitsOk(c: Limits) {
    c.rate > 0.0 && c.burst >= 1
  }

  const TTL := 600.0

  // ---- the limiter on values -----------------------------------------------------------

  /** Tokens earned over a span of time. */
  function Earned(c: Limits, span: real): real {
    span * c.rate
  }

  lemma EarnedAdd(c: Limits, a: real, b: real)
    requires LimitsOk(c) && a >= 0.0
    ensures Earned(c, a + b) == Earned(c, a) + Earned(c, b) && Earned(c, a) >= 0.0
    ensures Earned(c, 0.0) == 0.0
  {}

  function Refilled(b: BucketValue, c: Limits, now: Instant): real {
    var elapsed := now - b.last;
    if elapsed > 0.0 then
      var tokens := b.tokens + Earned(c, elapsed);
      if tokens > c.burst as real then c.burst as real else tokens
    else b.tokens
  }

  predicate Admits(b: Option<BucketValue>, c: Limits, now: Instant) {
    b.None? || Refilled(b.value, c, now) >= 1.0
  }

  function After(b: Option<BucketValue>, c: Limits, now: Instant): BucketValue {
    if b.None? then BucketValue(c.burst as real - 1.0, now, now)
    else
      var tokens := Refilled(b.value, c, now);
      BucketValue(if tokens >= 1.0 then tokens - 1.0 else tokens, now, now)
  }

  function Lookup(entries: map<string, BucketValue>, key: string): Option<BucketValue> {
    if key in entries then Some(entries[key]) else None
  }

  datatype State = State(entries: map<string, BucketValue>, requests: nat)

  const FRESH := State(map[], 0)

  function Kept(entries: map<string, BucketValue>, now: Instant): map<string, BucketValue> {
    map key | key in entries && now - entries[key].lastSeen <= TTL :: entries[key]
  }

  /** Every hundredth request evicts the clients not seen for ten minutes. */
  function Cleanup(s: State, now: Instant): State {
    State(if (s.requests + 1) % 100 == 0 then Kept(s.entries, now) else s.entries, s.requests + 1)
  }

  function Step(s: State, c: Limits, key: string, now: Instant): State {
    Cleanup(s.(entries := s.entries[key := After(Lookup(s.entries, key), c, now)]), now)
  }

  datatype Request = Request(key: string, at: Instant)

  function Answers(s: State, c: Limits, history: seq<Request>): seq<bool>
    decreases |history|
  {
    if history == [] then []
    else
      [Admits(Lookup(s.entries, history[0].key), c, history[0].at)]
      + Answers(Step(s, c, history[0].key, history[0].at), c, history[1..])
  }

  // ---- the references: a limiter that never evicts, and one client alone --------------------

  function PlainAnswers(entries: map<string, BucketValue>, c: Limits, history: seq<Request>): seq<bool>
    decreases |history|
  {
    if history == [] then []
    else
      var key, now := history[0].key, history[0].at;
      [Admits(Lookup(entries, key), c, now)]
      + PlainAnswers(entries[key := After(Lookup(entries, key), c, now)], c, history[1..])
  }

  function ClientAnswers(b: Option<BucketValue>, c: Limits, times: seq<Instant>): seq<bool>
    decreases |times|
  {
    if times == [] then []
    else [Admits(b, c, times[0])] + ClientAnswers(Some(After(b, c, times[0])), c, times[1..])
  }

  function TimesOf(history: seq<Request>, client: string): seq<Instant> {
    if history == [] then []
    else (if history[0].key == client then [history[0].at] else []) + TimesOf(history[1..], client)
  }

  function AnswersTo(history: seq<Request>, answers: seq<bool>, client: string): seq<bool>
    requires |answers| == |history|
  {
    if history == [] then []
    else (if history[0].key == client then [answers[0]] else []) + AnswersTo(history[1..], answers[1..], client)
  }

  /** The clock never goes back, starting from `from`. */
  ghost predicate Ordered(from: Instant, times: seq<Instant>)
    decreases |times|
  {
    times != [] ==> from <= times[0] && Ordered(times[0], times[1..])
  }

  ghost predicate OrderedHistory(from: Instant, history: seq<Request>)
    decreases |history|
  {
    history != [] ==> from <= history[0].at && OrderedHistory(history[0].at, history[1..])
  }

  // ---- a bucket stays within its bounds ------------------------------------------------------

  predicate BucketOk(b: BucketValue, c: Limits) {
    0.0 <= b.tokens <= c.burst as real && b.last == b.lastSeen
  }

  lemma AfterOk(b: Option<BucketValue>, c: Limits, now: Instant)
    requires LimitsOk(c) && (b.Some? ==> BucketOk(b.value, c))
    ensures BucketOk(After(b, c, now), c)
  {
    hide Earned;
    if b.Some? && now - b.value.last > 0.0 { EarnedAdd(c, now - b.value.last, 0.0); }
  }

  lemma {:induction false} AnswersLength(s: State, c: Limits, history: seq<Request>)
    ensures |Answers(s, c, history)| == |history|
    decreases |history|
  {
    if history != [] { AnswersLength(Step(s, c, history[0].key, history[0].at), c, history[1..]); }
  }

  lemma {:induction false} PlainLength(entries: map<string, BucketValue>, c: Limits, history: seq<Request>)
    ensures |PlainAnswers(entries, c, history)| == |history|
    decreases |history|
  {
    if history != [] {
      PlainLength(entries[history[0].key := After(Lookup(entries, history[0].key), c, history[0].at)], c, history[1..]);
    }
  }

  lemma {:induction false} ClientLength(b: Option<BucketValue>, c: Limits, times: seq<Instant>)
    ensures |ClientAnswers(b, c, times)| == |times|
    decreases |times|
  {
    if times != [] { ClientLength(Some(After(b, c, times[0])), c, times[1..]); }
  }

  // ---- eviction is unobservable ----------------------------------------------------------------

  /** The evicting limiter has the same buckets, except those idle for more than the TTL. */
  ghost predicate Agrees(entries: map<string, BucketValue>, plain: map<string, BucketValue>, c: Limits, clock: Instant) {
    && (forall key :: key in entries ==> key in plain && plain[key] == entries[key])
    && (forall key :: key in plain ==> BucketOk(plain[key], c) && plain[key].last <= clock)
    && (forall key :: key in plain && key !in entries ==> clock - plain[key].lastSeen > TTL)
  }

  /** A bucket idle for longer than the TTL has refilled completely, so it acts like a new one. */
  lemma IdleIsFull(b: BucketValue, c: Limits, now: Instant)
    requires LimitsOk(c) && Earned(c, TTL) >= c.burst as real && BucketOk(b, c) && now - b.lastSeen > TTL
    ensures Admits(Some(b), c, now) && After(Some(b), c, now) == After(None, c, now)
  {
    hide Earned;
    EarnedAdd(c, now - b.last - TTL, TTL);
    assert Refilled(b, c, now) == c.burst as real;
  }

  lemma AgreesStep(s: State, plain: map<string, BucketValue>, c: Limits, clock: Instant, key: string, now: Instant)
    requires LimitsOk(c) && Earned(c, TTL) >= c.burst as real && Agrees(s.entries, plain, c, clock) && clock <= now
    ensures Admits(Lookup(s.entries, key), c, now) == Admits(Lookup(plain, key), c, now)
    ensures Agrees(Step(s, c, key, now).entries, plain[key := After(Lookup(plain, key), c, now)], c, now)
  {
    if key in plain && key !in s.entries { IdleIsFull(plain[key], c, now); }
    AfterOk(Lookup(plain, key), c, now);
    assert After(Lookup(s.entries, key), c, now) == After(Lookup(plain, key), c, now);
    hide Refilled;
  }

  lemma {:induction false} EvictionUnobservable(
    s: State, plain: map<string, BucketValue>, c: Limits, clock: Instant, history: seq<Request>)
    requires LimitsOk(c) && Earned(c, TTL) >= c.burst as real && Agrees(s.entries, plain, c, clock)
    requires OrderedHistory(clock, history)
    ensures Answers(s, c, history) == PlainAnswers(plain, c, history)
    decreases |history|
  {
    if history != [] {
      var key, now := history[0].key, history[0].at;
      AgreesStep(s, plain, c, clock, key, now);
      EvictionUnobservable(Step(s, c, key, now), plain[key := After(Lookup(plain, key), c, now)], c, now, history[1..]);
    }
  }

  /** Without eviction each client only sees its own requests. */
  lemma {:induction false} ClientsIndependent(entries: map<string, BucketValue>, c: Limits, history: seq<Request>, client: string)
    ensures |PlainAnswers(entries, c, history)| == |history|
    ensures AnswersTo(history, PlainAnswers(entries, c, history), client)
            == ClientAnswers(Lookup(entries, client), c, TimesOf(history, client))
    decreases |history|
  {
    PlainLength(entries, c, history);
    if history != [] {
      var key, now := history[0].key, history[0].at;
      var next := entries[key := After(Lookup(entries, key), c, now)];
      ClientsIndependent(next, c, history[1..], client);
      assert PlainAnswers(entries, c, history)[1..] == PlainAnswers(next, c, history[1..]);
      var times := TimesOf(history[1..], client);
      if key == client {
        assert TimesOf(history, client)[1..] == times && TimesOf(history, client)[0] == now;
      } else {
        assert TimesOf(history, client) == times;
      }
    }
  }

  /** A client's answers from the evicting limiter depend on its own request times alone. */
  lemma ClientSeesOnlyItself(c: Limits, clock: Instant, history: seq<Request>, client: string)
    requires LimitsOk(c) && Earned(c, TTL) >= c.burst as real && OrderedHistory(clock, history)
    ensures |Answers(FRESH, c, history)| == |history|
    ensures AnswersTo(history, Answers(FRESH, c, history), client) == ClientAnswers(None, c, TimesOf(history, client))
  {
    EvictionUnobservable(FRESH, map[], c, clock, history);
    ClientsIndependent(map[], c, history, client);
  }

  // ---- the rate bound ------------------------------------------------------------------------------

  function Admitted(answers: seq<bool>): nat {
    if answers == [] then 0 else (if answers[0] then 1 else 0) + Admitted(answers[1..])
  }

  lemma RefillBound(b: BucketValue, c: Limits, now: Instant, until: Instant)
    requires LimitsOk(c) && b.last <= now
    ensures Refilled(b, c, now) + Earned(c, until - now) <= b.tokens + Earned(c, until - b.last)
  {
    hide Earned;
    EarnedAdd(c, now - b.last, until - now);
    assert (now - b.last) + (until - now) == until - b.last;
  }

  function Last(first: Instant, times: seq<Instant>): Instant {
    if times == [] then first else times[|times| - 1]
  }

  /** What a bucket holds and earns up to its last request pays for everything admitted. */
  lemma {:induction false} SpendingBound(b: BucketValue, c: Limits, times: seq<Instant>)
    requires LimitsOk(c) && BucketOk(b, c) && Ordered(b.last, times)
    ensures b.last <= Last(b.last, times)
    ensures Admitted(ClientAnswers(Some(b), c, times)) as real <= b.tokens + Earned(c, Last(b.last, times) - b.last)
    decreases |times|
  {
    hide Earned, Refilled;
    if times == [] {
      EarnedAdd(c, 0.0, 0.0);
    } else {
      var now, rest, b' := times[0], times[1..], After(Some(b), c, times[0]);
      AfterOk(Some(b), c, now);
      SpendingBound(b', c, rest);
      assert Last(b'.last, rest) == Last(b.last, times);
      RefillBound(b, c, now, Last(b.last, times));
      var answers := ClientAnswers(Some(b), c, times);
      assert answers[1..] == ClientAnswers(Some(b'), c, rest);
    }
  }

  lemma AdmittedCons(first: bool, rest: seq<bool>)
    ensures Admitted([first] + rest) == (if first then 1 else 0) + Admitted(rest)
  {
    assert ([first] + rest)[1..] == rest;
  }

  lemma {:induction false} LastOf(first: Instant, times: seq<Instant>)
    ensures Last(first, times) == ([first] + times)[|times|]
    decreases |times|
  {
    if times != [] { LastOf(times[0], times[1..]); }
  }

  /** From any bucket, a first request and what follows it are admitted at most burst plus rate times the span. */
  lemma FirstBound(b: Option<BucketValue>, c: Limits, times: seq<Instant>)
    requires LimitsOk(c) && (b.Some? ==> BucketOk(b.value, c)) && times != [] && Ordered(times[0], times)
    ensures Admitted(ClientAnswers(b, c, times)) as real <= c.burst as real + Earned(c, times[|times| - 1] - times[0])
  {
    var now, rest, b' := times[0], times[1..], After(b, c, times[0]);
    AfterOk(b, c, now);
    SpendingBound(b', c, rest);
    RefilledWithin(b, c, now);
    assert b'.last == now;
    LastOf(now, rest);
    assert ClientAnswers(b, c, times) == [Admits(b, c, now)] + ClientAnswers(Some(b'), c, rest);
    hide Earned, Refilled, ClientAnswers, Admits, After, Admitted, Last, Ordered, BucketOk;
    AdmittedCons(Admits(b, c, now), ClientAnswers(Some(b'), c, rest));
    assert [now] + rest == times;
  }

  lemma RefilledWithin(b: Option<BucketValue>, c: Limits, now: Instant)
    requires LimitsOk(c) && (b.Some? ==> BucketOk(b.value, c))
    ensures After(b, c, now).tokens + (if Admits(b, c, now) then 1.0 else 0.0) <= c.burst as real
  {}

  lemma {:induction false} OrderedTail(from: Instant, times: seq<Instant>, i: nat)
    requires Ordered(from, times) && i < |times|
    ensures Ordered(times[i], times[i..])
    decreases |times|
  {
    if i > 0 {
      OrderedTail(times[0], times[1..], i - 1);
      assert times[1..][i - 1..] == times[i..];
    }
  }

  lemma {:induction false} OrderedPrefix(from: Instant, times: seq<Instant>, n: nat)
    requires Ordered(from, times) && n <= |times|
    ensures Ordered(from, times[..n])
    decreases |times|
  {
    if n > 0 {
      OrderedPrefix(times[0], times[1..], n - 1);
      assert times[..n][1..] == times[1..][..n - 1];
    }
  }

  lemma {:induction false} ClientPrefix(b: Option<BucketValue>, c: Limits, times: seq<Instant>, n: nat)
    requires n <= |times|
    ensures |ClientAnswers(b, c, times)| == |times| && ClientAnswers(b, c, times)[..n] == ClientAnswers(b, c, times[..n])
    decreases |times|
  {
    ClientLength(b, c, times);
    if n > 0 {
      ClientPrefix(Some(After(b, c, times[0])), c, times[1..], n - 1);
      assert times[..n][1..] == times[1..][..n - 1];
    }
  }

  lemma {:induction false} WindowFrom(b: Option<BucketValue>, c: Limits, times: seq<Instant>, i: nat, j: nat)
    requires LimitsOk(c) && (b.Some? ==> BucketOk(b.value, c)) && i < j <= |times|
    requires times != [] && Ordered(times[0], times)
    ensures |ClientAnswers(b, c, times)| == |times|
    ensures Admitted(ClientAnswers(b, c, times)[i..j]) as real <= c.burst as real + Earned(c, times[j - 1] - times[i])
    decreases |times|
  {
    hide Earned, Refilled, ClientAnswers, Admitted, After, Ordered, BucketOk;
    ClientLength(b, c, times);
    if i == 0 {
      OrderedPrefix(times[0], times, j);
      ClientPrefix(b, c, times, j);
      assert ClientAnswers(b, c, times)[0..j] == ClientAnswers(b, c, times)[..j];
      FirstBound(b, c, times[..j]);
    } else {
      AfterOk(b, c, times[0]);
      OrderedTail(times[0], times, 1);
      ClientTail(b, c, times);
      WindowFrom(Some(After(b, c, times[0])), c, times[1..], i - 1, j - 1);
      SliceTail(ClientAnswers(b, c, times), i, j);
    }
  }

  lemma ClientTail(b: Option<BucketValue>, c: Limits, times: seq<Instant>)
    requires times != [] && |ClientAnswers(b, c, times)| == |times|
    ensures ClientAnswers(b, c, times)[1..] == ClientAnswers(Some(After(b, c, times[0])), c, times[1..])
  {
    hide After, Admits;
  }

  lemma SliceTail(s: seq<bool>, i: nat, j: nat)
    requires 0 < i <= j <= |s|
    ensures s[i..j] == s[1..][i - 1..j - 1]
  {
    assert forall k :: 0 <= k < j - i ==> s[i..j][k] == s[1..][i - 1..j - 1][k];
  }

  /** Of the requests i .. j-1 of one client, at most burst + rate * (their time span) are admitted, whoever else calls. */
  lemma RateBound(c: Limits, clock: Instant, history: seq<Request>, client: string, i: nat, j: nat)
    requires LimitsOk(c) && Earned(c, TTL) >= c.burst as real && OrderedHistory(clock, history)
    requires i < j <= |TimesOf(history, client)|
    ensures var times := TimesOf(history, client);
            && |Answers(FRESH, c, history)| == |history|
            && var answers := AnswersTo(history, Answers(FRESH, c, history), client);
               |answers| == |times|
               && Admitted(answers[i..j]) as real <= c.burst as real + Earned(c, times[j - 1] - times[i])
  {
    hide Earned, Refilled, Ordered, Answers, AnswersTo, TimesOf, ClientAnswers, Admitted, OrderedHistory;
    ClientSeesOnlyItself(c, clock, history, client);
    OrderedTimes(clock, history, client);
    OrderedTail(clock, TimesOf(history, client), 0);
    WindowFrom(None, c, TimesOf(history, client), i, j);
  }

  lemma {:induction false} OrderedTimes(from: Instant, history: seq<Request>, client: string)
    requires OrderedHistory(from, history)
    ensures Ordered(from, TimesOf(history, client))
    decreases |history|
  {
    if history != [] {
      OrderedTimes(history[0].at, history[1..], client);
      OrderedEarlier(from, history[0].at, TimesOf(history[1..], client));
      if history[0].key == client {
        assert TimesOf(history, client)[1..] == TimesOf(history[1..], client);
      } else {
        assert TimesOf(history, client) == TimesOf(history[1..], client);
      }
    }
  }

  lemma OrderedEarlier(a: Instant, b: Instant, times: seq<Instant>)
    requires a <= b && Ordered(b, times)
    ensures Ordered(a, times)
  {}

  ghost predicate Spaced(c: Limits, times: seq<Instant>) {
    forall i :: 0 < i < |times| ==> Earned(c, times[i] - times[i - 1]) >= 1.0
  }

  lemma EarnedPositive(c: Limits, span: real)
    requires LimitsOk(c) && Earned(c, span) >= 1.0
    ensures span > 0.0
  {}

  /** A bucket that has earned a token since its last request has one. */
  lemma EarnedAdmits(b: BucketValue, c: Limits, now: Instant)
    requires LimitsOk(c) && BucketOk(b, c) && Earned(c, now - b.last) >= 1.0
    ensures Admits(Some(b), c, now)
  {
    EarnedPositive(c, now - b.last);
    hide Earned;
  }

  /** A request keeps its own bucket, and leaves any other as it was or evicts it. */
  lemma StepLookup(s: State, c: Limits, key: string, now: Instant, client: string)
    ensures var b := Lookup(Step(s, c, key, now).entries, client);
            if key == client then b == Some(After(Lookup(s.entries, key), c, now))
            else b == None || b == Lookup(s.entries, client)
  {
    hide Refilled;
  }

  lemma TimesCons(history: seq<Request>, client: string)
    requires history != []
    ensures TimesOf(history, client) ==
            if history[0].key == client then [history[0].at] + TimesOf(history[1..], client) else TimesOf(history[1..], client)
  {}

  lemma SpacedTail(c: Limits, first: Instant, rest: seq<Instant>)
    requires Spaced(c, [first] + rest)
    ensures Spaced(c, rest) && (rest != [] ==> Earned(c, rest[0] - first) >= 1.0)
  {
    hide Earned;
    var times := [first] + rest;
    forall i | 0 < i < |rest| ensures Earned(c, rest[i] - rest[i - 1]) >= 1.0 {
      assert rest[i] == times[i + 1] && rest[i - 1] == times[i];
      assert Earned(c, times[i + 1] - times[i + 1 - 1]) >= 1.0;
    }
    if rest != [] {
      assert times[1] == rest[0] && times[0] == first;
      assert Earned(c, times[1] - times[1 - 1]) >= 1.0;
    }
  }

  lemma {:induction false} NeverRefusedFrom(s: State, c: Limits, history: seq<Request>, client: string)
    requires LimitsOk(c) && Spaced(c, TimesOf(history, client))
    requires var b, times := Lookup(s.entries, client), TimesOf(history, client);
             b.Some? ==> BucketOk(b.value, c) && (times != [] ==> Earned(c, times[0] - b.value.last) >= 1.0)
    ensures |Answers(s, c, history)| == |history|
    ensures NoneRefused(AnswersTo(history, Answers(s, c, history), client))
    decreases |history|
  {
    hide NoneRefused;
    if history == [] {
      NoneRefusedNone();
    } else {
      hide Earned, Step, Admits, After, BucketOk, Spaced, Lookup;
      var key, now, rest := history[0].key, history[0].at, history[1..];
      var b, s' := Lookup(s.entries, client), Step(s, c, history[0].key, history[0].at);
      TimesCons(history, client);
      StepLookup(s, c, key, now, client);
      if key == client {
        if b.Some? { EarnedAdmits(b.value, c, now); } else { NewAdmits(c, now); }
        AfterOk(b, c, now);
        AfterLast(b, c, now);
        SpacedTail(c, now, TimesOf(rest, client));
      }
      hide TimesOf;
      NeverRefusedFrom(s', c, rest, client);
      AnswersCons(s, c, history, client);
      hide Answers, AnswersTo;
      NoneRefusedCons(AnswersTo(rest, Answers(s', c, rest), client));
    }
  }

  lemma AnswersCons(s: State, c: Limits, history: seq<Request>, client: string)
    requires history != []
    requires var s', rest := Step(s, c, history[0].key, history[0].at), history[1..];
             |Answers(s', c, rest)| == |rest|
    ensures |Answers(s, c, history)| == |history|
    ensures var key, s', rest := history[0].key, Step(s, c, history[0].key, history[0].at), history[1..];
            var tail := AnswersTo(rest, Answers(s', c, rest), client);
            AnswersTo(history, Answers(s, c, history), client) ==
            if key == client then [Admits(Lookup(s.entries, key), c, history[0].at)] + tail else tail
  {
    hide Step, Admits, Lookup;
    var s', rest := Step(s, c, history[0].key, history[0].at), history[1..];
    var admitted := Admits(Lookup(s.entries, history[0].key), c, history[0].at);
    assert Answers(s, c, history) == [admitted] + Answers(s', c, rest);
    assert ([admitted] + Answers(s', c, rest))[1..] == Answers(s', c, rest);
  }

  ghost predicate NoneRefused(answers: seq<bool>) {
    forall i :: 0 <= i < |answers| ==> answers[i]
  }

  lemma NoneRefusedNone()
    ensures NoneRefused([])
  {}

  lemma NoneRefusedCons(rest: seq<bool>)
    requires NoneRefused(rest)
    ensures NoneRefused([true] + rest)
  {}

  lemma NewAdmits(c: Limits, now: Instant)
    ensures Admits(None, c, now)
  {}

  lemma AfterLast(b: Option<BucketValue>, c: Limits, now: Instant)
    ensures After(b, c, now).last == now
  {}

  /** A client whose requests are at least 1/rate apart is never refused, whoever else calls and whatever is evicted. */
  lemma NeverRefused(c: Limits, history: seq<Request>, client: string)
    requires LimitsOk(c) && Spaced(c, TimesOf(history, client))
    ensures |Answers(FRESH, c, history)| == |history|
    ensures NoneRefused(AnswersTo(history, Answers(FRESH, c, history), client))
  {
    NeverRefusedFrom(FRESH, c, history, client);
  }

  // ---- eviction is unobservable only then ----------------------------------------------------------

  function Repeat(key: string, at: Instant, n: nat): seq<Request> {
    if n == 0 then [] else [Request(key, at)] + Repeat(key, at, n - 1)
  }

  function RunAll(s: State, c: Limits, history: seq<Request>): State
    decreases |history|
  {
    if history == [] then s else RunAll(Step(s, c, history[0].key, history[0].at), c, history[1..])
  }

  lemma {:induction false} AnswersAppend(s: State, c: Limits, a: seq<Request>, b: seq<Request>)
    ensures Answers(s, c, a + b) == Answers(s, c, a) + Answers(RunAll(s, c, a), c, b)
    decreases |a|
  {
    hide Step, Admits;
    if a == [] {
      assert a + b == b;
    } else {
      assert (a + b)[1..] == a[1..] + b;
      AnswersAppend(Step(s, c, a[0].key, a[0].at), c, a[1..], b);
    }
  }

  lemma {:induction false} RunAppend(s: State, c: Limits, a: seq<Request>, b: seq<Request>)
    ensures RunAll(s, c, a + b) == RunAll(RunAll(s, c, a), c, b)
    decreases |a|
  {
    hide Step;
    if a == [] {
      assert a + b == b;
    } else {
      assert (a + b)[1..] == a[1..] + b;
      RunAppend(Step(s, c, a[0].key, a[0].at), c, a[1..], b);
    }
  }

  /** What `key` can still take at the instant of its last request, or as a new client. */
  predicate Affords(s: State, c: Limits, key: string, at: Instant, n: nat) {
    if key in s.entries then s.entries[key].last == at && s.entries[key].lastSeen == at && s.entries[key].tokens >= n as real
    else c.burst >= n
  }

  lemma {:induction false} BurstAdmitted(s: State, c: Limits, key: string, at: Instant, n: nat)
    requires LimitsOk(c) && Affords(s, c, key, at, n)
    ensures |Answers(s, c, Repeat(key, at, n))| == n && Admitted(Answers(s, c, Repeat(key, at, n))) == n
    decreases n
  {
    if n > 0 {
      BurstAdmitted(Step(s, c, key, at), c, key, at, n - 1);
      assert Repeat(key, at, n)[1..] == Repeat(key, at, n - 1);
      var answers := Answers(s, c, Repeat(key, at, n));
      assert answers[1..] == Answers(Step(s, c, key, at), c, Repeat(key, at, n - 1));
    }
  }

  ghost predicate SeenAt(s: State, at: Instant, except: string) {
    forall key :: key in s.entries && key != except ==> s.entries[key].lastSeen == at
  }

  lemma {:induction false} RepeatRun(s: State, c: Limits, key: string, at: Instant, n: nat, seen: Instant, except: string)
    requires SeenAt(s, seen, except) && (key == except || at == seen)
    ensures var s' := RunAll(s, c, Repeat(key, at, n));
            SeenAt(s', seen, except) && s'.requests == s.requests + n
            && (n > 0 && s'.requests % 100 == 0 && at - seen > TTL ==> forall k :: k in s'.entries ==> k == except)
    decreases n
  {
    if n > 0 {
      var next := Step(s, c, key, at);
      assert Repeat(key, at, n)[1..] == Repeat(key, at, n - 1);
      RepeatRun(next, c, key, at, n - 1, seen, except);
    }
  }

  lemma {:induction false} RepeatTimes(key: string, at: Instant, n: nat, client: string)
    ensures |Repeat(key, at, n)| == n
    ensures TimesOf(Repeat(key, at, n), client) == if key == client then seq(n, _ => at) else []
    decreases n
  {
    if n > 0 {
      RepeatTimes(key, at, n - 1, client);
      assert Repeat(key, at, n)[1..] == Repeat(key, at, n - 1);
    }
  }

  lemma Associative<T>(x: seq<T>, y: seq<T>, z: seq<T>)
    ensures (x + y) + z == x + (y + z)
  {}

  lemma {:induction false} TimesAppend(a: seq<Request>, b: seq<Request>, client: string)
    ensures TimesOf(a + b, client) == TimesOf(a, client) + TimesOf(b, client)
  {
    if a == [] {
      assert a + b == b;
    } else {
      var rest, first := a[1..], [a[0].at];
      assert (a + b)[1..] == rest + b && (a + b)[0] == a[0];
      hide TimesOf;
      TimesAppend(rest, b, client);
      TimesCons(a, client);
      TimesCons(a + b, client);
      Associative(first, TimesOf(rest, client), TimesOf(b, client));
      if a[0].key == client {
        assert TimesOf(a + b, client) == first + (TimesOf(rest, client) + TimesOf(b, client));
      }
    }
  }

  lemma {:induction false} AnswersToAppend(a: seq<Request>, x: seq<bool>, b: seq<Request>, y: seq<bool>, client: string)
    requires |a| == |x| && |b| == |y|
    ensures AnswersTo(a + b, x + y, client) == AnswersTo(a, x, client) + AnswersTo(b, y, client)
  {
    if a == [] {
      assert a + b == b && x + y == y;
    } else {
      assert (a + b)[1..] == a[1..] + b && (x + y)[1..] == x[1..] + y;
      assert (a + b)[0] == a[0] && (x + y)[0] == x[0];
      AnswersToAppend(a[1..], x[1..], b, y, client);
      var head := if a[0].key == client then [x[0]] else [];
      assert AnswersTo(a + b, x + y, client) == head + AnswersTo(a[1..] + b, x[1..] + y, client);
      assert AnswersTo(a, x, client) == head + AnswersTo(a[1..], x[1..], client);
    }
  }

  lemma {:induction false} AnswersToRepeat(key: string, at: Instant, n: nat, answers: seq<bool>, client: string)
    requires |answers| == n
    ensures |Repeat(key, at, n)| == n
    ensures AnswersTo(Repeat(key, at, n), answers, client) == if key == client then answers else []
    decreases n
  {
    RepeatTimes(key, at, n, client);
    if n > 0 {
      assert Repeat(key, at, n)[1..] == Repeat(key, at, n - 1);
      AnswersToRepeat(key, at, n - 1, answers[1..], client);
    }
  }

  /** One client alone spends its whole burst at once, and later gets no more than it has earned since. */
  lemma {:induction false} AloneAfterBurst(b: Option<BucketValue>, c: Limits, at: Instant, n: nat, later: Instant)
    requires LimitsOk(c) && at <= later
    requires if b.Some? then b.value == BucketValue(n as real, at, at) && n <= c.burst else n == c.burst
    ensures var times := seq(n, _ => at) + seq(c.burst, _ => later);
            |ClientAnswers(b, c, times)| == |times|
            && Admitted(ClientAnswers(b, c, times)[n..]) as real <= Earned(c, later - at)
    decreases n
  {
    hide Earned, Admitted, ClientAnswers;
    var tail := seq(c.burst, _ => later);
    var times := seq(n, _ => at) + tail;
    ClientLength(b, c, times);
    if n == 0 {
      assert times == tail;
      LateSpending(b.value, c, at, later);
      assert ClientAnswers(b, c, times)[0..] == ClientAnswers(b, c, tail);
    } else {
      assert times[1..] == seq(n - 1, _ => at) + tail && times[0] == at;
      AloneAfterBurst(Some(After(b, c, at)), c, at, n - 1, later);
      ClientTail(b, c, times);
      hide After;
      DropTail(ClientAnswers(b, c, times), n);
    }
  }

  lemma DropTail(s: seq<bool>, n: nat)
    requires 0 < n <= |s|
    ensures s[n..] == s[1..][n - 1..]
  {
    assert forall k :: 0 <= k < |s| - n ==> s[n..][k] == s[1..][n - 1..][k];
  }

  lemma LateSpending(b: BucketValue, c: Limits, at: Instant, later: Instant)
    requires LimitsOk(c) && at <= later && b == BucketValue(0.0, at, at)
    ensures Admitted(ClientAnswers(Some(b), c, seq(c.burst, _ => later))) as real <= Earned(c, later - at)
  {
    hide Earned, ClientAnswers, Admitted;
    var times := seq(c.burst, _ => later);
    SameTimes(later, c.burst);
    assert Ordered(at, times);
    LastSame(at, later, c.burst);
    SpendingBound(b, c, times);
  }

  lemma {:induction false} LastSame(first: Instant, at: Instant, n: nat)
    ensures Last(first, seq(n, _ => at)) == if n == 0 then first else at
    decreases n
  {
    if n > 0 {
      assert seq(n, _ => at)[1..] == seq(n - 1, _ => at);
      LastSame(at, at, n - 1);
    }
  }

  lemma {:induction false} SameTimes(at: Instant, n: nat)
    ensures Ordered(at, seq(n, _ => at))
    decreases n
  {
    if n > 0 {
      SameTimes(at, n - 1);
      assert seq(n, _ => at)[1..] == seq(n - 1, _ => at);
    }
  }

  lemma {:induction false} OrderedRepeat(from: Instant, key: string, at: Instant, n: nat, rest: seq<Request>)
    requires from <= at && OrderedHistory(at, rest)
    ensures OrderedHistory(from, Repeat(key, at, n) + rest)
    decreases n
  {
    if n == 0 {
      assert Repeat(key, at, n) + rest == rest;
    } else {
      OrderedRepeat(at, key, at, n - 1, rest);
      var history := Repeat(key, at, n) + rest;
      assert history[0] == Request(key, at) && history[1..] == Repeat(key, at, n - 1) + rest;
      hide Repeat;
    }
  }

  /** An instant past the TTL at which a bucket emptied at time 0 has not refilled yet. */
  lemma LateButPoor(c: Limits) returns (later: Instant)
    requires LimitsOk(c) && Earned(c, TTL) < c.burst as real
    ensures later > TTL && Earned(c, later) < c.burst as real
  {
    var missing := c.burst as real - TTL * c.rate;
    var extra := missing / (2.0 * c.rate);
    later := TTL + extra;
    assert extra * c.rate == missing / 2.0;
    assert later * c.rate == TTL * c.rate + extra * c.rate;
  }

  /** A burst, a wait past the TTL padded with another client up to a cleanup, and a second burst. */
  function Probe(c: Limits, later: Instant): seq<Request>
    requires c.burst >= 1
  {
    Repeat("a", 0.0, c.burst) + (Repeat("b", later, 100 - c.burst % 100) + Repeat("a", later, c.burst))
  }

  /** After the padding the cleanup has evicted the first client, which can then spend a whole burst. */
  lemma ProbeState(c: Limits, later: Instant)
    requires LimitsOk(c) && later > TTL
    ensures var one, two := Repeat("a", 0.0, c.burst), Repeat("b", later, 100 - c.burst % 100);
            Affords(RunAll(RunAll(FRESH, c, one), c, two), c, "a", later, c.burst)
  {
    var n, m := c.burst, 100 - c.burst % 100;
    Padded(n);
    var s1 := RunAll(FRESH, c, Repeat("a", 0.0, n));
    RepeatRun(FRESH, c, "a", 0.0, n, 0.0, "b");
    var total := s1.requests + m;
    assert total % 100 == 0;
    hide RunAll, Repeat, Step;
    RepeatRun(s1, c, "b", later, m, 0.0, "b");
    assert "a" != "b";
  }

  lemma Padded(n: nat)
    ensures 0 < 100 - n % 100 <= 100 && (n + (100 - n % 100)) % 100 == 0
  {
    assert n + (100 - n % 100) == 100 * (n / 100 + 1);
  }

  lemma ProbeEvicting(c: Limits, later: Instant)
    requires LimitsOk(c) && later > TTL
    ensures |Answers(FRESH, c, Probe(c, later))| == |Probe(c, later)|
    ensures var answers := AnswersTo(Probe(c, later), Answers(FRESH, c, Probe(c, later)), "a");
            |answers| == 2 * c.burst && Admitted(answers[..c.burst]) == c.burst && Admitted(answers[c.burst..]) == c.burst
  {
    hide Answers, AnswersTo, RunAll, Repeat, Affords, Admitted, TimesOf;
    var n, m := c.burst, 100 - c.burst % 100;
    var one, two, three := Repeat("a", 0.0, n), Repeat("b", later, m), Repeat("a", later, n);
    var s1 := RunAll(FRESH, c, one);
    var s2 := RunAll(s1, c, two);
    ProbeState(c, later);
    FreshAffords(c, "a", 0.0);
    BurstAdmitted(FRESH, c, "a", 0.0, n);
    BurstAdmitted(s2, c, "a", later, n);
    AnswersAppend(FRESH, c, one, two + three);
    AnswersAppend(s1, c, two, three);
    AnswersLength(FRESH, c, one);
    AnswersLength(s1, c, two);
    AnswersLength(s2, c, three);
    var x, y, z := Answers(FRESH, c, one), Answers(s1, c, two), Answers(s2, c, three);
    RepeatTimes("a", 0.0, n, "a");
    RepeatTimes("b", later, m, "a");
    RepeatTimes("a", later, n, "a");
    AnswersToAppend(one, x, two + three, y + z, "a");
    AnswersToAppend(two, y, three, z, "a");
    AnswersToRepeat("a", 0.0, n, x, "a");
    AnswersToRepeat("b", later, m, y, "a");
    AnswersToRepeat("a", later, n, z, "a");
    assert "a" != "b";
    assert (x + ([] + z))[n..] == z && (x + ([] + z))[..n] == x;
  }

  lemma FreshAffords(c: Limits, key: string, at: Instant)
    requires LimitsOk(c)
    ensures Affords(FRESH, c, key, at, c.burst)
  {}

  lemma ProbeAlone(c: Limits, later: Instant)
    requires LimitsOk(c) && later > TTL && Earned(c, later) < c.burst as real
    ensures |PlainAnswers(map[], c, Probe(c, later))| == |Probe(c, later)|
    ensures var answers := AnswersTo(Probe(c, later), PlainAnswers(map[], c, Probe(c, later)), "a");
            |answers| == 2 * c.burst && Admitted(answers[c.burst..]) < c.burst
  {
    hide Earned;
    var n := c.burst;
    ProbeTimes(c, later);
    ClientsIndependent(map[], c, Probe(c, later), "a");
    AloneAfterBurst(None, c, 0.0, n, later);
    assert later - 0.0 == later;
  }

  /** Eviction can never be noticed exactly when ten minutes refill a whole burst. */
  lemma EvictionUnobservableExactly(c: Limits)
    requires LimitsOk(c)
    ensures (forall history :: OrderedHistory(0.0, history) ==> Answers(FRESH, c, history) == PlainAnswers(map[], c, history))
            <==> Earned(c, TTL) >= c.burst as real
  {
    hide Earned;
    if Earned(c, TTL) >= c.burst as real {
      forall history | OrderedHistory(0.0, history) ensures Answers(FRESH, c, history) == PlainAnswers(map[], c, history) {
        EvictionUnobservable(FRESH, map[], c, 0.0, history);
      }
    } else {
      var later := LateButPoor(c);
      ProbeEvicting(c, later);
      ProbeAlone(c, later);
      ProbeOrdered(c, later);
      assert Answers(FRESH, c, Probe(c, later)) != PlainAnswers(map[], c, Probe(c, later));
    }
  }

  lemma {:induction false} AdmittedAppend(a: seq<bool>, b: seq<bool>)
    ensures Admitted(a + b) == Admitted(a) + Admitted(b)
  {
    if a == [] {
      assert a + b == b;
    } else {
      assert a + b == [a[0]] + (a[1..] + b) && a == [a[0]] + a[1..];
      AdmittedCons(a[0], a[1..] + b);
      AdmittedCons(a[0], a[1..]);
      AdmittedAppend(a[1..], b);
    }
  }

  /** Of the requests i .. j-1 of one client, at most burst + rate * (their time span) are admitted. */
  predicate Bounded(c: Limits, history: seq<Request>, client: string, i: nat, j: nat)
    requires i < j <= |TimesOf(history, client)| && |Answers(FRESH, c, history)| == |history|
  {
    var times, answers := TimesOf(history, client), AnswersTo(history, Answers(FRESH, c, history), client);
    && |answers| == |times|
    && Admitted(answers[i..j]) as real <= c.burst as real + Earned(c, times[j - 1] - times[i])
  }

  ghost predicate AlwaysBounded(c: Limits) {
    forall history, client, i: nat, j: nat ::
      OrderedHistory(0.0, history) && |Answers(FRESH, c, history)| == |history| && i < j <= |TimesOf(history, client)| ==>
        Bounded(c, history, client, i, j)
  }

  lemma ProbeOrdered(c: Limits, later: Instant)
    requires LimitsOk(c) && later >= 0.0
    ensures OrderedHistory(0.0, Probe(c, later))
  {
    var three := Repeat("a", later, c.burst);
    OrderedRepeat(later, "a", later, c.burst, []);
    assert three + [] == three;
    OrderedRepeat(0.0, "b", later, 100 - c.burst % 100, three);
    OrderedRepeat(0.0, "a", 0.0, c.burst, Repeat("b", later, 100 - c.burst % 100) + three);
  }

  lemma ProbeTimes(c: Limits, later: Instant)
    requires LimitsOk(c)
    ensures TimesOf(Probe(c, later), "a") == seq(c.burst, _ => 0.0) + seq(c.burst, _ => later)
  {
    var n, m := c.burst, 100 - c.burst % 100;
    var one, two, three := Repeat("a", 0.0, n), Repeat("b", later, m), Repeat("a", later, n);
    RepeatTimes("a", 0.0, n, "a");
    RepeatTimes("b", later, m, "a");
    RepeatTimes("a", later, n, "a");
    TimesAppend(one, two + three, "a");
    TimesAppend(two, three, "a");
    assert "a" != "b";
    hide TimesOf, Repeat;
  }

  lemma ProbeExceeds(c: Limits, later: Instant)
    requires LimitsOk(c) && later > TTL && Earned(c, later) < c.burst as real
    ensures |Answers(FRESH, c, Probe(c, later))| == |Probe(c, later)| && |TimesOf(Probe(c, later), "a")| == 2 * c.burst
    ensures !Bounded(c, Probe(c, later), "a", 0, 2 * c.burst)
  {
    ProbeEvicting(c, later);
    ProbeTimes(c, later);
    var answers := AnswersTo(Probe(c, later), Answers(FRESH, c, Probe(c, later)), "a");
    hide Answers, AnswersTo, TimesOf, Probe, Admitted, Earned;
    assert answers[0..2 * c.burst] == answers == answers[..c.burst] + answers[c.burst..];
    AdmittedAppend(answers[..c.burst], answers[c.burst..]);
    assert later - 0.0 == later;
  }

  /** The rate bound holds of every history exactly under the condition that makes eviction unobservable. */
  lemma RateBoundExactly(c: Limits)
    requires LimitsOk(c)
    ensures AlwaysBounded(c) <==> Earned(c, TTL) >= c.burst as real
  {
    hide Earned, Answers, AnswersTo, TimesOf, Admitted, Probe, OrderedHistory;
    if Earned(c, TTL) >= c.burst as real {
      forall history, client, i: nat, j: nat
        | OrderedHistory(0.0, history) && |Answers(FRESH, c, history)| == |history| && i < j <= |TimesOf(history, client)|
        ensures Bounded(c, history, client, i, j)
      {
        RateBound(c, 0.0, history, client, i, j);
      }
    } else {
      var later := LateButPoor(c);
      ProbeOrdered(c, later);
      ProbeExceeds(c, later);
      hide Bounded;
      assert 0 < 2 * c.burst;
    }
  }

  // ---- the exact law ------------------------------------------------------------------------------

  /** A client's bucket before its request `k`. */
  function BucketAt(b: Option<BucketValue>, c: Limits, times: seq<Instant>, k: nat): Option<BucketValue>
    requires k <= |times|
  {
    if k == 0 then b else Some(After(BucketAt(b, c, times, k - 1), c, times[k - 1]))
  }

  lemma {:induction false} BucketShift(b: Option<BucketValue>, c: Limits, times: seq<Instant>, k: nat)
    requires 0 < k <= |times|
    ensures BucketAt(b, c, times, k) == BucketAt(Some(After(b, c, times[0])), c, times[1..], k - 1)
  {
    hide After;
    if k > 1 { BucketShift(b, c, times, k - 1); }
  }

  lemma {:induction false} AnswerIs(b: Option<BucketValue>, c: Limits, times: seq<Instant>, k: nat)
    requires k < |times|
    ensures |ClientAnswers(b, c, times)| == |times|
    ensures ClientAnswers(b, c, times)[k] == Admits(BucketAt(b, c, times, k), c, times[k])
    decreases k
  {
    ClientLength(b, c, times);
    hide After, Admits;
    if k > 0 {
      AnswerIs(Some(After(b, c, times[0])), c, times[1..], k - 1);
      BucketShift(b, c, times, k);
    }
  }

  /** What the bucket of a client new at its first request holds at request `k`, before it is spent. */
  function Level(c: Limits, times: seq<Instant>, k: nat): real
    requires k < |times|
  {
    if k == 0 then c.burst as real else Refilled(BucketAt(None, c, times, k).value, c, times[k])
  }

  predicate Takes(c: Limits, times: seq<Instant>, k: nat)
    requires k < |times|
  {
    Level(c, times, k) >= 1.0
  }

  lemma {:induction false} BucketAtOk(c: Limits, times: seq<Instant>, k: nat)
    requires LimitsOk(c) && k <= |times|
    ensures var b := BucketAt(None, c, times, k);
            (b.None? <==> k == 0) && (k > 0 ==> BucketOk(b.value, c) && b.value.last == times[k - 1])
  {
    if k > 0 {
      BucketAtOk(c, times, k - 1);
      AfterOk(BucketAt(None, c, times, k - 1), c, times[k - 1]);
      AfterLast(BucketAt(None, c, times, k - 1), c, times[k - 1]);
      hide After, BucketOk;
    }
  }

  lemma TakesAdmits(c: Limits, times: seq<Instant>, k: nat)
    requires LimitsOk(c) && k < |times|
    ensures Takes(c, times, k) <==> Admits(BucketAt(None, c, times, k), c, times[k])
  {
    BucketAtOk(c, times, k);
    hide Refilled;
  }

  function Min(a: real, b: real): real {
    if a < b then a else b
  }

  ghost predicate Sorted(times: seq<Instant>) {
    forall i, j :: 0 <= i <= j < |times| ==> times[i] <= times[j]
  }

  /** How far the clock moves forward from one instant to the next. */
  function Gap(a: Instant, b: Instant): real {
    if a < b then b - a else 0.0
  }

  /** And in all from request `i` to request `k`: what it goes back in between does not count. */
  function Moved(times: seq<Instant>, i: nat, k: nat): real
    requires i <= k < |times|
  {
    if i == k then 0.0 else Moved(times, i, k - 1) + Gap(times[k - 1], times[k])
  }

  lemma {:induction false} MovedForward(times: seq<Instant>, i: nat, k: nat)
    requires i <= k < |times|
    ensures Moved(times, i, k) >= 0.0
    ensures Sorted(times) ==> Moved(times, i, k) == times[k] - times[i]
  {
    if i < k { MovedForward(times, i, k - 1); }
  }

  lemma LevelNext(c: Limits, times: seq<Instant>, k: nat)
    requires LimitsOk(c) && k + 1 < |times|
    ensures Level(c, times, k + 1) ==
            Min(c.burst as real,
                Level(c, times, k) - (if Takes(c, times, k) then 1.0 else 0.0) + Earned(c, Gap(times[k], times[k + 1])))
  {
    BucketAtOk(c, times, k);
    BucketAtOk(c, times, k + 1);
    EarnedAdd(c, 0.0, 0.0);
    var b := BucketAt(None, c, times, k);
    assert BucketAt(None, c, times, k + 1) == Some(After(b, c, times[k]));
    assert After(b, c, times[k]).tokens == Level(c, times, k) - (if Takes(c, times, k) then 1.0 else 0.0);
    hide Earned, BucketAt, After;
  }

  /** What requests i .. k-1 have left of a full bucket and of what is earned since request `i`. */
  function Allowance(c: Limits, times: seq<Instant>, answers: seq<bool>, i: nat, k: nat): real
    requires i <= k < |times| == |answers|
  {
    c.burst as real + Earned(c, Moved(times, i, k)) - Admitted(answers[i..k]) as real
  }

  lemma AllowanceNext(c: Limits, times: seq<Instant>, answers: seq<bool>, i: nat, k: nat)
    requires LimitsOk(c) && i <= k && k + 1 < |times| == |answers|
    ensures Allowance(c, times, answers, i, k + 1) ==
            Allowance(c, times, answers, i, k) - (if answers[k] then 1.0 else 0.0) + Earned(c, Gap(times[k], times[k + 1]))
  {
    MovedForward(times, i, k);
    EarnedAdd(c, Moved(times, i, k), Gap(times[k], times[k + 1]));
    assert answers[i..k + 1] == answers[i..k] + [answers[k]];
    AdmittedAppend(answers[i..k], [answers[k]]);
    AdmittedCons(answers[k], []);
    assert [answers[k]] + [] == [answers[k]];
    hide Earned;
  }

  lemma AllowanceNow(c: Limits, times: seq<Instant>, answers: seq<bool>, k: nat)
    requires LimitsOk(c) && k < |times| == |answers|
    ensures Allowance(c, times, answers, k, k) == c.burst as real
  {
    assert answers[k..k] == [];
    EarnedAdd(c, 0.0, 0.0);
    hide Earned;
  }

  /** The level is the least of the allowances. */
  lemma {:induction false} LevelExact(c: Limits, times: seq<Instant>, answers: seq<bool>, k: nat) returns (low: nat)
    requires LimitsOk(c) && k < |times| == |answers|
    requires forall i :: 0 <= i < |times| ==> answers[i] == Takes(c, times, i)
    ensures forall i :: 0 <= i <= k ==> Level(c, times, k) <= Allowance(c, times, answers, i, k)
    ensures low <= k && Level(c, times, k) == Allowance(c, times, answers, low, k)
  {
    AllowanceNow(c, times, answers, k);
    if k == 0 {
      low := 0;
    } else {
      low := LevelExact(c, times, answers, k - 1);
      LevelNext(c, times, k - 1);
      forall i | 0 <= i < k
        ensures Allowance(c, times, answers, i, k) ==
                Allowance(c, times, answers, i, k - 1) - (if answers[k - 1] then 1.0 else 0.0)
                + Earned(c, Gap(times[k - 1], times[k]))
      {
        AllowanceNext(c, times, answers, i, k - 1);
      }
      hide Earned, Level, Takes, Allowance;
      if Level(c, times, k) == c.burst as real { low := k; }
    }
  }

  /**
   * Without eviction and with any clock, request `k` of a client is admitted exactly when no window that ends with it
   * is used up, where what is earned counts the clock's forward moves alone.
   */
  lemma AloneExactly(c: Limits, times: seq<Instant>, k: nat)
    requires LimitsOk(c) && k < |times|
    ensures var answers := ClientAnswers(None, c, times);
            && |answers| == |times|
            && (answers[k] <==>
                forall i :: 0 <= i <= k ==>
                  Admitted(answers[i..k]) as real + 1.0 <= c.burst as real + Earned(c, Moved(times, i, k)))
  {
    var answers := ClientAnswers(None, c, times);
    ClientLength(None, c, times);
    forall i | 0 <= i < |times| ensures answers[i] == Takes(c, times, i) {
      AnswerIs(None, c, times, i);
      TakesAdmits(c, times, i);
    }
    var low := LevelExact(c, times, answers, k);
    hide Earned, Level, ClientAnswers, Admitted;
    forall i | 0 <= i <= k
      ensures Allowance(c, times, answers, i, k) >= 1.0 <==>
              Admitted(answers[i..k]) as real + 1.0 <= c.burst as real + Earned(c, Moved(times, i, k))
    {}
    hide Allowance;
  }

  lemma {:induction false} OrderedSorted(from: Instant, times: seq<Instant>)
    requires Ordered(from, times)
    ensures Sorted(times) && forall i :: 0 <= i < |times| ==> from <= times[i]
    decreases |times|
  {
    if times != [] {
      OrderedSorted(times[0], times[1..]);
      forall i, j | 0 <= i <= j < |times| ensures times[i] <= times[j] {
        if i > 0 { assert times[1..][i - 1] <= times[1..][j - 1]; } else if j > 0 { assert times[0] <= times[1..][j - 1]; }
      }
    }
  }

  /**
   * Request `k` of a client is admitted if and only if for every earlier request `i` of it, and for itself, those
   * admitted since leave a token of a full bucket and what was earned since, whoever else calls.
   */
  ghost predicate Lawful(c: Limits, history: seq<Request>, client: string, k: nat)
    requires k < |TimesOf(history, client)| && |Answers(FRESH, c, history)| == |history|
  {
    var times, answers := TimesOf(history, client), AnswersTo(history, Answers(FRESH, c, history), client);
    && |answers| == |times|
    && (answers[k] <==>
        forall i :: 0 <= i <= k ==>
          Admitted(answers[i..k]) as real + 1.0 <= c.burst as real + Earned(c, times[k] - times[i]))
  }

  lemma AdmittedExactly(c: Limits, clock: Instant, history: seq<Request>, client: string, k: nat)
    requires LimitsOk(c) && Earned(c, TTL) >= c.burst as real && OrderedHistory(clock, history)
    requires k < |TimesOf(history, client)|
    ensures |Answers(FRESH, c, history)| == |history| && Lawful(c, history, client, k)
  {
    hide Earned, Answers, AnswersTo, TimesOf, ClientAnswers, Admitted, OrderedHistory;
    ClientSeesOnlyItself(c, clock, history, client);
    OrderedTimes(clock, history, client);
    OrderedSorted(clock, TimesOf(history, client));
    var times := TimesOf(history, client);
    AloneExactly(c, times, k);
    forall i | 0 <= i <= k ensures Moved(times, i, k) == times[k] - times[i] {
      MovedForward(times, i, k);
    }
  }

  ghost predicate AlwaysLawful(c: Limits) {
    forall history, client, k: nat ::
      OrderedHistory(0.0, history) && |Answers(FRESH, c, history)| == |history| && k < |TimesOf(history, client)| ==>
        Lawful(c, history, client, k)
  }

  /** Every answer to every history is the lawful one exactly when ten minutes refill a whole burst. */
  lemma AdmittedExactlyWhen(c: Limits)
    requires LimitsOk(c)
    ensures AlwaysLawful(c) <==> Earned(c, TTL) >= c.burst as real
  {
    hide Earned, Answers, AnswersTo, TimesOf, Admitted, Probe, OrderedHistory, Lawful;
    if Earned(c, TTL) >= c.burst as real {
      forall history, client, k: nat
        | OrderedHistory(0.0, history) && |Answers(FRESH, c, history)| == |history| && k < |TimesOf(history, client)|
        ensures Lawful(c, history, client, k)
      {
        AdmittedExactly(c, 0.0, history, client, k);
      }
    } else {
      var later := LateButPoor(c);
      ProbeOrdered(c, later);
      ProbeUnlawful(c, later);
    }
  }

  lemma {:induction false} AllAdmitted(answers: seq<bool>)
    ensures Admitted(answers) <= |answers|
    ensures Admitted(answers) == |answers| ==> forall i :: 0 <= i < |answers| ==> answers[i]
  {
    if answers != [] { AllAdmitted(answers[1..]); }
  }

  lemma ProbeUnlawful(c: Limits, later: Instant)
    requires LimitsOk(c) && later > TTL && Earned(c, later) < c.burst as real
    ensures |Answers(FRESH, c, Probe(c, later))| == |Probe(c, later)| && |TimesOf(Probe(c, later), "a")| == 2 * c.burst
    ensures !Lawful(c, Probe(c, later), "a", 2 * c.burst - 1)
  {
    ProbeEvicting(c, later);
    ProbeTimes(c, later);
    var answers, k := AnswersTo(Probe(c, later), Answers(FRESH, c, Probe(c, later)), "a"), 2 * c.burst - 1;
    hide Answers, AnswersTo, TimesOf, Probe, Admitted, Earned;
    assert answers == answers[..c.burst] + answers[c.burst..];
    AdmittedAppend(answers[..c.burst], answers[c.burst..]);
    AllAdmitted(answers);
    assert answers == answers[0..k] + [true];
    AdmittedAppend(answers[0..k], [true]);
    AllAdmitted([true]);
    assert later - 0.0 == later;
  }

  // ---- what is remembered -------------------------------------------------------------------------

  /** The instant of a client's last request. */
  function LastSeen(history: seq<Request>, key: string): Option<Instant> {
    if history == [] then None
    else
      var r := history[|history| - 1];
      if r.key == key then Some(r.at) else LastSeen(history[..|history| - 1], key)
  }

  /** Entries know when their client was last seen, and who has no entry was not seen for more than ten minutes. */
  ghost predicate KnowsIdle(s: State, history: seq<Request>, clock: Instant) {
    && s.requests == |history|
    && (forall key :: key in s.entries ==> LastSeen(history, key) == Some(s.entries[key].lastSeen))
    && (forall key :: LastSeen(history, key).Some? && key !in s.entries ==> clock - LastSeen(history, key).value > 600.0)
  }

  lemma KnowsIdleStep(s: State, c: Limits, history: seq<Request>, clock: Instant, r: Request)
    requires KnowsIdle(s, history, clock) && clock <= r.at
    ensures KnowsIdle(Step(s, c, r.key, r.at), history + [r], r.at)
    ensures (|history| + 1) % 100 == 0 ==>
              forall key :: key in Step(s, c, r.key, r.at).entries ==> r.at - Step(s, c, r.key, r.at).entries[key].lastSeen <= 600.0
  {
    hide Refilled;
    assert (history + [r])[..|history|] == history;
    forall key ensures LastSeen(history + [r], key) == if r.key == key then Some(r.at) else LastSeen(history, key) {}
    assert After(Lookup(s.entries, r.key), c, r.at).lastSeen == r.at;
    hide LastSeen, After;
  }

  lemma {:induction false} RunKnowsIdle(c: Limits, history: seq<Request>)
    requires OrderedHistory(0.0, history)
    ensures var clock := if history == [] then 0.0 else history[|history| - 1].at;
            && clock >= 0.0 && KnowsIdle(RunAll(FRESH, c, history), history, clock)
            && (history != [] && |history| % 100 == 0 ==>
                  forall key :: key in RunAll(FRESH, c, history).entries ==>
                    clock - RunAll(FRESH, c, history).entries[key].lastSeen <= 600.0)
  {
    if history != [] {
      var rest, r := history[..|history| - 1], history[|history| - 1];
      assert history == rest + [r];
      OrderedSplit(0.0, rest, r);
      RunKnowsIdle(c, rest);
      RunAppend(FRESH, c, rest, [r]);
      KnowsIdleStep(RunAll(FRESH, c, rest), c, rest, if rest == [] then 0.0 else rest[|rest| - 1].at, r);
      hide KnowsIdle, Step;
    }
  }

  lemma {:induction false} OrderedSplit(from: Instant, rest: seq<Request>, r: Request)
    requires OrderedHistory(from, rest + [r])
    ensures OrderedHistory(from, rest) && (if rest == [] then from else rest[|rest| - 1].at) <= r.at
    decreases |rest|
  {
    if rest != [] {
      assert (rest + [r])[1..] == rest[1..] + [r];
      OrderedSplit(rest[0].at, rest[1..], r);
    } else {
      assert rest + [r] == [r];
    }
  }

  /** After every hundredth request exactly the clients of the last ten minutes are remembered. */
  lemma RemembersExactly(c: Limits, history: seq<Request>, key: string)
    requires OrderedHistory(0.0, history) && history != [] && |history| % 100 == 0
    ensures key in RunAll(FRESH, c, history).entries <==>
            LastSeen(history, key).Some? && history[|history| - 1].at - LastSeen(history, key).value <= 600.0
  {
    RunKnowsIdle(c, history);
    hide RunAll, LastSeen, OrderedHistory;
  }

  /** However the clock moves, every bucket stays between empty and full. */
  lemma {:induction false} TokensBounded(s: State, c: Limits, history: seq<Request>)
    requires LimitsOk(c) && forall key :: key in s.entries ==> BucketOk(s.entries[key], c)
    ensures forall key :: key in RunAll(s, c, history).entries ==> BucketOk(RunAll(s, c, history).entries[key], c)
    decreases |history|
  {
    if history != [] {
      AfterOk(Lookup(s.entries, history[0].key), c, history[0].at);
      hide BucketOk, After;
      TokensBounded(Step(s, c, history[0].key, history[0].at), c, history[1..]);
    }
  }

  // ---- the limiter in place -------------------------------------------------------------------------

  class Bucket {
    var tokens: real
    var last: Instant
    var lastSeen: Instant

    constructor (tokens: real, now: Instant)
      ensures Value() == BucketValue(tokens, now, now)
    {
      this.tokens, last, lastSeen := tokens, now, now;
    }

    function Value(): BucketValue
      reads this
    {
      BucketValue(tokens, last, lastSeen)
    }
  }

  class IpLimiter {
    const limits: Limits
    var entries: map<string, Bucket>
    var requests: nat

    constructor (rate: real, burst: int)
      ensures limits == Limits(rate, burst) && Valid() && View() == FRESH
    {
      limits := Limits(rate, burst);
      entries, requests := map[], 0;
    }

    ghost function Buckets(): set<Bucket>
      reads this`entries
    {
      set key | key in entries :: entries[key]
    }

    /** Clients do not share buckets. */
    ghost predicate Valid()
      reads this`entries
    {
      forall a, b :: a in entries && b in entries && a != b ==> entries[a] != entries[b]
    }

    ghost function View(): State
      reads this, Buckets()
    {
      State(map key | key in entries :: entries[key].Value(), requests)
    }

    method Allow(key: string, now: Instant) returns (allowed: bool)
      requires Valid()
      modifies this, Buckets()
      ensures Valid() && View() == Step(old(View()), limits, key, now)
      ensures allowed == Admits(Lookup(old(View()).entries, key), limits, now)
      ensures fresh(Buckets() - old(Buckets()))
    {
      ghost var before := View();
      if key !in entries {
        var b := new Bucket(limits.burst as real - 1.0, now);
        entries := entries[key := b];
        assert View().entries == before.entries[key := b.Value()];
        CleanupIfNeeded(now);
        return true;
      }
      var b := entries[key];
      allowed := Spend(b, now);
      assert View().entries == before.entries[key := b.Value()];
      CleanupIfNeeded(now);
    }

    /** Refills the bucket and takes one token if there is one. */
    method Spend(b: Bucket, now: Instant) returns (allowed: bool)
      modifies b
      ensures b.Value() == After(Some(old(b.Value())), limits, now)
      ensures allowed == Admits(Some(old(b.Value())), limits, now)
    {
      var elapsed := now - b.last;
      assert elapsed * limits.rate == Earned(limits, elapsed);
      hide Earned;
      if elapsed > 0.0 {
        b.tokens := b.tokens + elapsed * limits.rate;
        if b.tokens > limits.burst as real { b.tokens := limits.burst as real; }
      }
      b.last := now;
      b.lastSeen := now;
      allowed := b.tokens >= 1.0;
      if allowed { b.tokens := b.tokens - 1.0; }
    }

    method CleanupIfNeeded(now: Instant)
      requires Valid()
      modifies this
      ensures Valid() && View() == Cleanup(old(View()), now)
      ensures Buckets() <= old(Buckets())
    {
      ghost var before := View();
      requests := requests + 1;
      if requests % 100 != 0 { return; }
      EvictIdle(now);
      assert View().entries == Kept(before.entries, now);
    }

    method EvictIdle(now: Instant)
      modifies this`entries
      ensures forall key :: key in old(entries) ==> (key in entries <==> now - old(entries)[key].lastSeen <= TTL)
      ensures forall key :: key in entries ==> key in old(entries) && entries[key] == old(entries)[key]
    {
      var todo := entries.Keys;
      ghost var all := entries;
      while todo != {}
        invariant todo <= all.Keys
        invariant forall key :: key in entries ==> key in all && entries[key] == all[key]
        invariant forall key :: key in all ==> (key in entries <==> key in todo || now - all[key].lastSeen <= TTL)
        decreases todo
      {
        var key :| key in todo;
        todo := todo - {key};
        if now - entries[key].lastSeen > TTL { entries := entries - {key}; }
      }
    }
  }
}
