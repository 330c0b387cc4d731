/** Webhook verification: signature, timestamp window, and the replay guard with its opportunistic cleanup. */
module WebhookVerifier {
  import opened Text

  /** Nanoseconds. */
  type Time = int

  const SECOND := 1_000_000_000
  const DEFAULT_REPLAY_TTL := 15 * 60 * SECOND

  // ---- the replay guard on values -------------------------------------------------------

  type Seen = map<string, Time>

  function EffectiveTTL(ttl: int): int {
    if ttl <= 0 then DEFAULT_REPLAY_TTL else ttl
  }

  function Cleaned(seen: Seen, now: Time): Seen {
    map id | id in seen && seen[id] > now :: seen[id]
  }

  predicate AlreadySeen(seen: Seen, id: string, now: Time) {
    id in seen && seen[id] > now
  }

  function Marked(seen: Seen, id: string, now: Time, ttl: int): Seen {
    var kept := Cleaned(seen, now);
    if AlreadySeen(kept, id, now) then kept else kept[id := now + EffectiveTTL(ttl)]
  }

  class InMemoryReplayGuard {
    var seen: Seen

    constructor ()
      ensures seen == map[]
    {
      seen := map[];
    }

    method CheckAndMark(eventID: string, now: Time, ttl: int) returns (alreadySeen: bool)
      modifies this
      ensures alreadySeen == AlreadySeen(old(seen), eventID, now)
      ensures seen == Marked(old(seen), eventID, now, ttl)
    {
      var window := if ttl <= 0 then DEFAULT_REPLAY_TTL else ttl;
      ghost var before := seen;
      var todo := seen.Keys;
      while todo != {}
        invariant todo <= before.Keys
        invariant forall id :: id in seen ==> id in before && seen[id] == before[id]
        invariant forall id :: id in before ==> (id in seen <==> id in todo || before[id] > now)
        decreases todo
      {
        var id :| id in todo;
        todo := todo - {id};
        if !(seen[id] > now) { seen := seen - {id}; }
      }
      assert seen == Cleaned(before, now);
      if eventID in seen && seen[eventID] > now { return true; }
      seen := seen[eventID := now + window];
      alreadySeen := false;
    }
  }

  // ---- the guard against a full history of marks --------------------------------------------

  datatype Mark = Mark(id: string, expireAt: Time)
  datatype Query = Query(id: string, now: Time, ttl: int)

  function Expiry(q: Query): Time {
    q.now + EffectiveTTL(q.ttl)
  }

  /** Nothing is ever forgotten. */
  predicate EverMarked(marks: seq<Mark>, id: string, now: Time) {
    exists i :: 0 <= i < |marks| && marks[i].id == id && marks[i].expireAt > now
  }

  /** What the guard remembers before query `n`. */
  function SeenAt(queries: seq<Query>, n: nat): Seen
    requires n <= |queries|
  {
    if n == 0 then map[]
    else
      var q := queries[n - 1];
      Marked(SeenAt(queries, n - 1), q.id, q.now, q.ttl)
  }

  /** The full history before query `n`. */
  function MarksAt(queries: seq<Query>, n: nat): seq<Mark>
    requires n <= |queries|
  {
    if n == 0 then []
    else
      var marks, q := MarksAt(queries, n - 1), queries[n - 1];
      if EverMarked(marks, q.id, q.now) then marks else marks + [Mark(q.id, Expiry(q))]
  }

  predicate GuardAnswer(queries: seq<Query>, k: nat)
    requires k < |queries|
  {
    AlreadySeen(SeenAt(queries, k), queries[k].id, queries[k].now)
  }

  predicate HistoryAnswer(queries: seq<Query>, k: nat)
    requires k < |queries|
  {
    EverMarked(MarksAt(queries, k), queries[k].id, queries[k].now)
  }

  /** The guard answers as the full history would. */
  ghost predicate Unobservable(queries: seq<Query>) {
    forall k: nat :: k < |queries| ==> GuardAnswer(queries, k) == HistoryAnswer(queries, k)
  }

  /** No reading falls below an expiry that an earlier reading has reached. */
  ghost predicate NoReturn(queries: seq<Query>) {
    forall i, j, k :: 0 <= i < j < k < |queries| ==> !(queries[k].now < Expiry(queries[i]) <= queries[j].now)
  }

  ghost predicate SameReadings(a: seq<Query>, b: seq<Query>) {
    |a| == |b| && forall k :: 0 <= k < |a| ==> a[k].now == b[k].now && a[k].ttl == b[k].ttl
  }

  /** A mark of one of the first `n` queries. */
  predicate Made(queries: seq<Query>, n: nat, m: Mark, i: nat)
    requires n <= |queries|
  {
    i < n && m.expireAt == Expiry(queries[i])
  }

  ghost predicate Stems(queries: seq<Query>, n: nat, m: Mark)
    requires n <= |queries|
  {
    exists i: nat :: Made(queries, n, m, i)
  }

  /** Its expiry was reached by a later one of them. */
  ghost predicate Reached(queries: seq<Query>, n: nat, m: Mark)
    requires n <= |queries|
  {
    exists i: nat, j: nat :: j < n && Made(queries, j, m, i) && queries[j].now >= m.expireAt
  }

  predicate Alive(seen: Seen, m: Mark) {
    m.id in seen && seen[m.id] == m.expireAt
  }

  /** The guard has the marks of the history, except those whose expiry has been reached. */
  ghost predicate Remembers(queries: seq<Query>, n: nat)
    requires n <= |queries|
  {
    var seen, marks := SeenAt(queries, n), MarksAt(queries, n);
    && (forall id :: id in seen ==> Mark(id, seen[id]) in marks)
    && (forall m :: m in marks ==> Stems(queries, n, m))
    && (forall m :: m in marks ==> Alive(seen, m) || Reached(queries, n, m))
  }

  lemma ReachedMore(queries: seq<Query>, n: nat, m: Mark)
    requires n < |queries| && Reached(queries, n, m)
    ensures Reached(queries, n + 1, m)
  {
    var i: nat, j: nat :| j < n && Made(queries, j, m, i) && queries[j].now >= m.expireAt;
    assert j < n + 1 && Made(queries, j, m, i);
  }

  lemma NotReached(queries: seq<Query>, n: nat, m: Mark)
    requires n < |queries| && NoReturn(queries) && queries[n].now < m.expireAt
    ensures !Reached(queries, n, m)
  {
    hide EffectiveTTL;
    forall i: nat, j: nat | j < n && Made(queries, j, m, i) ensures queries[j].now < m.expireAt {
      assert i < j < n && m.expireAt == Expiry(queries[i]);
    }
  }

  lemma RemembersAnswers(queries: seq<Query>, n: nat)
    requires n < |queries| && Remembers(queries, n) && NoReturn(queries)
    ensures GuardAnswer(queries, n) == HistoryAnswer(queries, n)
  {
    hide SeenAt, MarksAt;
    var seen, marks, q := SeenAt(queries, n), MarksAt(queries, n), queries[n];
    if AlreadySeen(seen, q.id, q.now) {
      assert Mark(q.id, seen[q.id]) in marks;
    }
    if EverMarked(marks, q.id, q.now) {
      var x :| 0 <= x < |marks| && marks[x].id == q.id && marks[x].expireAt > q.now;
      var m := marks[x];
      assert m in marks;
      NotReached(queries, n, m);
    }
  }

  /** A mark after one more query: alive still, reached by this reading, or reached before. */
  lemma RemembersMark(queries: seq<Query>, n: nat, m: Mark)
    requires n < |queries| && Remembers(queries, n) && GuardAnswer(queries, n) == HistoryAnswer(queries, n)
    requires m in MarksAt(queries, n + 1)
    ensures Stems(queries, n + 1, m)
    ensures Alive(SeenAt(queries, n + 1), m) || Reached(queries, n + 1, m)
  {
    var seen, marks, q := SeenAt(queries, n), MarksAt(queries, n), queries[n];
    assert SeenAt(queries, n + 1) == Marked(seen, q.id, q.now, q.ttl);
    assert MarksAt(queries, n + 1) == if EverMarked(marks, q.id, q.now) then marks else marks + [Mark(q.id, Expiry(q))];
    hide SeenAt, MarksAt, EverMarked, EffectiveTTL;
    if m in marks {
      var i: nat :| Made(queries, n, m, i);
      assert Made(queries, n + 1, m, i);
      if !Alive(seen, m) {
        ReachedMore(queries, n, m);
      } else if m.expireAt <= q.now {
        assert Made(queries, n, m, i) && n < n + 1;
      }
    } else {
      assert m == Mark(q.id, Expiry(q)) && Made(queries, n + 1, m, n);
    }
  }

  lemma RemembersStep(queries: seq<Query>, n: nat)
    requires n < |queries| && Remembers(queries, n) && GuardAnswer(queries, n) == HistoryAnswer(queries, n)
    ensures Remembers(queries, n + 1)
  {
    var seen, marks, q := SeenAt(queries, n), MarksAt(queries, n), queries[n];
    var seen', marks' := SeenAt(queries, n + 1), MarksAt(queries, n + 1);
    assert seen' == Marked(seen, q.id, q.now, q.ttl);
    assert marks' == if EverMarked(marks, q.id, q.now) then marks else marks + [Mark(q.id, Expiry(q))];
    forall m | m in marks'
      ensures Stems(queries, n + 1, m)
      ensures Alive(seen', m) || Reached(queries, n + 1, m)
    {
      RemembersMark(queries, n, m);
    }
    hide SeenAt, MarksAt, EverMarked, EffectiveTTL, Made, Alive, Reached, Stems;
    forall id | id in seen' ensures Mark(id, seen'[id]) in marks' {
      if id in seen && seen'[id] == seen[id] { assert Mark(id, seen[id]) in marks; }
    }
  }

  lemma RemembersNothing(queries: seq<Query>)
    ensures Remembers(queries, 0)
  {}

  lemma {:induction false} RemembersAll(queries: seq<Query>, n: nat)
    requires n <= |queries| && NoReturn(queries)
    ensures Remembers(queries, n)
  {
    hide GuardAnswer, HistoryAnswer, NoReturn, Remembers;
    if n == 0 {
      RemembersNothing(queries);
    } else {
      RemembersAll(queries, n - 1);
      RemembersAnswers(queries, n - 1);
      RemembersStep(queries, n - 1);
    }
  }

  lemma NoReturnUnobservable(queries: seq<Query>)
    requires NoReturn(queries)
    ensures Unobservable(queries)
  {
    hide GuardAnswer, HistoryAnswer, NoReturn, Remembers;
    forall k: nat | k < |queries| ensures GuardAnswer(queries, k) == HistoryAnswer(queries, k) {
      RemembersAll(queries, k);
      RemembersAnswers(queries, k);
    }
  }

  // ---- a return below a reached expiry is observable ---------------------------------------------

  /** The same readings: queries `i` and `k` ask for one id, all others for another. */
  function Probe(queries: seq<Query>, i: nat, k: nat): seq<Query> {
    seq(|queries|, n requires 0 <= n < |queries| => queries[n].(id := if n == i || n == k then "a" else "b"))
  }

  lemma {:induction false} ProbeFresh(queries: seq<Query>, i: nat, k: nat, n: nat)
    requires n <= i < k < |queries|
    ensures forall m :: m in MarksAt(Probe(queries, i, k), n) ==> m.id == "b"
  {
    if n > 0 { ProbeFresh(queries, i, k, n - 1); }
  }

  lemma {:induction false} ProbeMarked(queries: seq<Query>, i: nat, k: nat, n: nat)
    requires i < n <= k < |queries|
    ensures Mark("a", Expiry(queries[i])) in MarksAt(Probe(queries, i, k), n)
    decreases n
  {
    if n == i + 1 {
      ProbeFresh(queries, i, k, i);
      var marks := MarksAt(Probe(queries, i, k), i);
      assert !EverMarked(marks, "a", queries[i].now) by {
        assert forall x :: 0 <= x < |marks| ==> marks[x] in marks && "a" != "b";
      }
    } else {
      ProbeMarked(queries, i, k, n - 1);
    }
  }

  lemma {:induction false} ProbeUnseen(queries: seq<Query>, i: nat, k: nat, n: nat)
    requires n <= i < k < |queries|
    ensures "a" !in SeenAt(Probe(queries, i, k), n)
  {
    if n > 0 {
      assert "a" != "b";
      ProbeUnseen(queries, i, k, n - 1);
    }
  }

  lemma {:induction false} ProbeSeen(queries: seq<Query>, i: nat, k: nat, n: nat)
    requires i < n <= k < |queries|
    ensures var seen := SeenAt(Probe(queries, i, k), n);
            "a" in seen ==> forall j :: i < j < n ==> queries[j].now < Expiry(queries[i]) == seen["a"]
    ensures var seen := SeenAt(Probe(queries, i, k), n); "a" in seen ==> seen["a"] == Expiry(queries[i])
    decreases n
  {
    if n == i + 1 {
      ProbeUnseen(queries, i, k, i);
    } else {
      assert "a" != "b";
      ProbeSeen(queries, i, k, n - 1);
    }
  }

  lemma ReturnObservable(queries: seq<Query>, i: nat, j: nat, k: nat)
    requires i < j < k < |queries| && queries[k].now < Expiry(queries[i]) <= queries[j].now
    ensures SameReadings(queries, Probe(queries, i, k)) && !Unobservable(Probe(queries, i, k))
  {
    ProbeMarked(queries, i, k, k);
    ProbeSeen(queries, i, k, k);
    var probe := Probe(queries, i, k);
    hide SeenAt, MarksAt;
    var x :| 0 <= x < |MarksAt(probe, k)| && MarksAt(probe, k)[x] == Mark("a", Expiry(queries[i]));
    assert HistoryAnswer(probe, k) && !GuardAnswer(probe, k);
  }

  /** For given readings, forgetting expired marks is unobservable whatever ids are asked for exactly when none returns. */
  lemma CleanupUnobservableExactly(queries: seq<Query>)
    ensures (forall other :: SameReadings(queries, other) ==> Unobservable(other)) <==> NoReturn(queries)
  {
    if NoReturn(queries) {
      forall other | SameReadings(queries, other) ensures Unobservable(other) {
        assert NoReturn(other);
        NoReturnUnobservable(other);
      }
    } else {
      var i, j, k :| 0 <= i < j < k < |queries| && queries[k].now < Expiry(queries[i]) <= queries[j].now;
      ReturnObservable(queries, i, j, k);
    }
  }

  /** With a clock that never goes back none does. */
  lemma CleanupUnobservable(queries: seq<Query>)
    requires forall i, j :: 0 <= i < j < |queries| ==> queries[i].now <= queries[j].now
    ensures Unobservable(queries)
  {
    NoReturnUnobservable(queries);
  }

  // ---- verification on values -------------------------------------------------------------------

  datatype Event = Event(id: string, rest: string)

  /** The headers and body of one delivery. */
  datatype Message = Message(timestamp: string, signature: string, body: string)

  datatype Error =
    | MissingTimestamp | MissingSignature | TimestampOutOfWindow | InvalidSignatureShape
    | InvalidSignature | InvalidEventPayload | MissingEventID | ReplayDetected

  datatype Result<T> = Ok(value: T) | Err(error: Error)

  /** HMAC (RFC 2104) and JSON decoding are parameters. */
  datatype Setup = Setup(
    secret: string, allowedSkew: int, replayTTL: int,
    hmac: (string, string, string) -> string, decode: string -> Option<Event>)

  function LowerChar(c: char): char {
    if 'A' <= c <= 'Z' then c - 'A' + 'a' else c
  }

  const PREFIX := "sha256="

  predicate HasSignaturePrefix(raw: string) {
    |PREFIX| <= |raw| && forall i :: 0 <= i < |PREFIX| ==> LowerChar(raw[i]) == PREFIX[i]
  }

  function ParseSignatureHeader(raw: string): Result<string> {
    if !HasSignaturePrefix(raw) then Err(InvalidSignatureShape)
    else
      var out := TrimSpace(raw[|PREFIX|..]);
      if out == "" then Err(InvalidSignatureShape) else Ok(out)
  }

  const MAX_DURATION := 0x7fff_ffff_ffff_ffff
  const MIN_DURATION := -0x8000_0000_0000_0000

  /** `time.Time.Sub`: a difference of more than about 292 years saturates. */
  function Sub(a: Time, b: Time): int {
    var d := a - b;
    if d > MAX_DURATION then MAX_DURATION else if d < MIN_DURATION then MIN_DURATION else d
  }

  /** The smallest duration has no opposite in 64 bits and stays negative. */
  function AbsDuration(d: int): int {
    if d < 0 && d != MIN_DURATION then -d else d
  }

  const UNIX_TO_INTERNAL := 62135596800

  /** `time.Unix(sec, 0)`, whose seconds since year 1 wrap around in 64 bits. */
  function UnixTime(sec: int): Time {
    (if sec + UNIX_TO_INTERNAL > MAX_INT64 then sec - 0x1_0000_0000_0000_0000 else sec) * SECOND
  }

  /** What the timestamp check lets through. */
  predicate InWindow(c: Setup, now: Time, at: Time) {
    AbsDuration(Sub(now, at)) <= c.allowedSkew
  }

  predicate WindowOk(c: Setup) {
    0 < c.allowedSkew <= MAX_DURATION && 0 < c.replayTTL <= MAX_DURATION
  }

  /** The window check refuses nothing: the skew is the largest duration, or the distance saturates below. */
  predicate Saturates(c: Setup, now: Time, at: Time) {
    c.allowedSkew == MAX_DURATION || now <= at + MIN_DURATION
  }

  /** An instant within the skew, or one for which the check saturates. */
  lemma WindowExact(c: Setup, now: Time, at: Time)
    requires WindowOk(c)
    ensures InWindow(c, now, at) <==> at - c.allowedSkew <= now <= at + c.allowedSkew || Saturates(c, now, at)
  {}

  /** The signed instant of a message. */
  function EventTime(m: Message): Option<Time> {
    match ParseInt(TrimSpace(m.timestamp))
    case None => None
    case Some(sec) => Some(UnixTime(sec))
  }

  /** The timestamp counts seconds, in decimal. */
  lemma InstantOfSeconds(sec: int, m: Message)
    requires -MAX_INT64 - 1 <= sec <= MAX_INT64 - UNIX_TO_INTERNAL && TrimSpace(m.timestamp) == Itoa(sec)
    ensures EventTime(m) == Some(sec * SECOND)
  {
    ParseItoa(sec);
  }

  /** Everything checked before the replay guard is asked. */
  function Screen(c: Setup, m: Message, now: Time): Result<Event> {
    var timestamp := TrimSpace(m.timestamp);
    var signature := TrimSpace(m.signature);
    if timestamp == "" then Err(MissingTimestamp)
    else if signature == "" then Err(MissingSignature)
    else
      var eventTime := EventTime(m);
      if eventTime.None? || !InWindow(c, now, eventTime.value) then Err(TimestampOutOfWindow)
      else
        var rawSig := ParseSignatureHeader(signature);
        if rawSig.Err? then Err(rawSig.error)
        else if rawSig.value != c.hmac(c.secret, timestamp, m.body) then Err(InvalidSignature)
        else
          var event := c.decode(m.body);
          if event.None? then Err(InvalidEventPayload)
          else if TrimSpace(event.value.id) == "" then Err(MissingEventID)
          else Ok(event.value)
  }

  function Verified(c: Setup, seen: Seen, m: Message, now: Time): Result<Event> {
    var screened := Screen(c, m, now);
    if screened.Ok? && AlreadySeen(seen, TrimSpace(screened.value.id), now) then Err(ReplayDetected) else screened
  }

  function SeenAfter(c: Setup, seen: Seen, m: Message, now: Time): Seen {
    var screened := Screen(c, m, now);
    if screened.Ok? then Marked(seen, TrimSpace(screened.value.id), now, c.replayTTL) else seen
  }

  class Verifier {
    const setup: Setup
    const guard: InMemoryReplayGuard

    constructor (setup: Setup)
      ensures this.setup == setup.(secret := TrimSpace(setup.secret))
      ensures fresh(guard) && guard.seen == map[]
    {
      this.setup := setup.(secret := TrimSpace(setup.secret));
      guard := new InMemoryReplayGuard();
    }

    method Verify(m: Message, now: Time) returns (r: Result<Event>)
      modifies guard
      ensures r == Verified(setup, old(guard.seen), m, now)
      ensures guard.seen == SeenAfter(setup, old(guard.seen), m, now)
    {
      var timestamp := TrimSpace(m.timestamp);
      if timestamp == "" { return Err(MissingTimestamp); }
      var signature := TrimSpace(m.signature);
      if signature == "" { return Err(MissingSignature); }
      var sec := ParseInt(timestamp);
      if sec == None { return Err(TimestampOutOfWindow); }
      if AbsDuration(Sub(now, UnixTime(sec.value))) > setup.allowedSkew { return Err(TimestampOutOfWindow); }
      var rawSig := ParseSignatureHeader(signature);
      if rawSig.Err? { return Err(rawSig.error); }
      var expected := setup.hmac(setup.secret, timestamp, m.body);
      if rawSig.value != expected { return Err(InvalidSignature); }
      var event := setup.decode(m.body);
      if event.None? { return Err(InvalidEventPayload); }
      var eventID := TrimSpace(event.value.id);
      if eventID == "" { return Err(MissingEventID); }
      var alreadySeen := guard.CheckAndMark(eventID, now, setup.replayTTL);
      if alreadySeen { return Err(ReplayDetected); }
      r := Ok(event.value);
    }
  }

  // ---- what the answers mean ------------------------------------------------------------------------

  /** Equal but for capital letters. */
  predicate SameFold(p: string, q: string) {
    |p| == |q| && forall i :: 0 <= i < |p| ==> p[i] == q[i] || ('a' <= q[i] <= 'z' && p[i] as int == q[i] as int - 32)
  }

  /** The signature header carries this text: `sha256=` in any case, then the text, with blanks around. */
  ghost predicate Carries(m: Message, text: string) {
    exists p, q :: TrimSpace(m.signature) == p + q && SameFold(p, "sha256=") && TrimSpace(q) == text
  }

  /** What the sender of the message must have computed. */
  function Digest(c: Setup, m: Message): string {
    c.hmac(c.secret, TrimSpace(m.timestamp), m.body)
  }

  ghost predicate Signed(c: Setup, m: Message) {
    Digest(c, m) != "" && Carries(m, Digest(c, m))
  }

  predicate HasEvent(c: Setup, m: Message) {
    c.decode(m.body).Some? && TrimSpace(c.decode(m.body).value.id) != ""
  }

  /** A correctly signed message with a timestamp and an event id. */
  ghost predicate Authentic(c: Setup, m: Message) {
    EventTime(m).Some? && Signed(c, m) && HasEvent(c, m)
  }

  function EventID(c: Setup, m: Message): string
    requires HasEvent(c, m)
  {
    TrimSpace(c.decode(m.body).value.id)
  }

  predicate Blank(s: string) {
    TrimSpace(s) == ""
  }

  predicate InTime(c: Setup, m: Message, now: Time) {
    EventTime(m).Some? && InWindow(c, now, EventTime(m).value)
  }

  lemma Folded(p: string)
    ensures SameFold(p, "sha256=") <==> |p| == 7 && forall i :: 0 <= i < 7 ==> LowerChar(p[i]) == "sha256="[i]
  {
    forall i | 0 <= i < 7 && |p| == 7
      ensures LowerChar(p[i]) == "sha256="[i] <==>
              p[i] == "sha256="[i] || ('a' <= "sha256="[i] <= 'z' && p[i] as int == "sha256="[i] as int - 32)
    {}
  }

  /** Parsing the header is finding the text it carries. */
  lemma ParsedCarries(m: Message, text: string)
    ensures text != "" ==> (ParseSignatureHeader(TrimSpace(m.signature)) == Ok(text) <==> Carries(m, text))
  {
    hide TrimSpace, LowerChar, SameFold;
    var raw := TrimSpace(m.signature);
    if HasSignaturePrefix(raw) {
      assert raw == raw[..7] + raw[7..];
      Folded(raw[..7]);
    }
    if Carries(m, text) {
      var p, q :| TrimSpace(m.signature) == p + q && SameFold(p, "sha256=") && TrimSpace(q) == text;
      Folded(p);
      assert (p + q)[7..] == q && forall i :: 0 <= i < 7 ==> (p + q)[i] == p[i];
    }
  }

  /** The screening accepts exactly the authentic messages whose instant is in the window. */
  lemma ScreenExact(c: Setup, m: Message, now: Time)
    ensures Screen(c, m, now).Ok? <==> Authentic(c, m) && InTime(c, m, now)
    ensures Screen(c, m, now).Ok? ==> Screen(c, m, now).value == c.decode(m.body).value
  {
    ParsedCarries(m, Digest(c, m));
    hide Carries, InWindow, UnixTime, TrimSpace;
  }

  ghost predicate CarriesSome(m: Message) {
    exists text :: text != "" && Carries(m, text)
  }

  lemma ParsedSome(m: Message)
    ensures ParseSignatureHeader(TrimSpace(m.signature)).Ok? <==> CarriesSome(m)
    ensures ParseSignatureHeader(TrimSpace(m.signature)).Err? ==>
              ParseSignatureHeader(TrimSpace(m.signature)) == Err(InvalidSignatureShape)
    ensures CarriesSome(m) ==> !Blank(m.signature)
  {
    hide Carries, TrimSpace;
    var r := ParseSignatureHeader(TrimSpace(m.signature));
    if r.Ok? { ParsedCarries(m, r.value); }
    if text :| text != "" && Carries(m, text) { ParsedCarries(m, text); }
  }

  lemma ScreenRefuses(c: Setup, m: Message, now: Time)
    ensures var r := Screen(c, m, now);
            && (r == Err(MissingTimestamp) <==> Blank(m.timestamp))
            && (r == Err(MissingSignature) <==> !Blank(m.timestamp) && Blank(m.signature))
            && (r == Err(TimestampOutOfWindow) <==> !Blank(m.timestamp) && !Blank(m.signature) && !InTime(c, m, now))
            && (r == Err(InvalidSignatureShape) <==> !Blank(m.signature) && InTime(c, m, now) && !CarriesSome(m))
            && (r == Err(InvalidSignature) <==> InTime(c, m, now) && CarriesSome(m) && !Signed(c, m))
            && (r == Err(InvalidEventPayload) <==> InTime(c, m, now) && Signed(c, m) && c.decode(m.body).None?)
            && (r == Err(MissingEventID) <==>
                InTime(c, m, now) && Signed(c, m) && c.decode(m.body).Some? && !HasEvent(c, m))
            && r != Err(ReplayDetected)
  {
    ParsedSome(m);
    ParsedCarries(m, Digest(c, m));
    InTimeSome(c, m, now);
    assert Signed(c, m) ==> CarriesSome(m) by { hide Carries; }
    hide Carries, CarriesSome, InWindow, TrimSpace, ParseSignatureHeader, UnixTime;
  }

  lemma InTimeSome(c: Setup, m: Message, now: Time)
    ensures InTime(c, m, now) ==> !Blank(m.timestamp)
  {
    hide InWindow, TrimSpace;
  }

  // ---- at most one acceptance ---------------------------------------------------------------------

  datatype Call = Call(message: Message, now: Time)

  /** What the guard has seen after the first `n` calls. */
  function GuardAt(c: Setup, calls: seq<Call>, n: nat): Seen
    requires n <= |calls|
  {
    if n == 0 then map[] else SeenAfter(c, GuardAt(c, calls, n - 1), calls[n - 1].message, calls[n - 1].now)
  }

  function AnswerAt(c: Setup, calls: seq<Call>, k: nat): Result<Event>
    requires k < |calls|
  {
    Verified(c, GuardAt(c, calls, k), calls[k].message, calls[k].now)
  }

  ghost predicate ClockForward(calls: seq<Call>) {
    forall i, j :: 0 <= i < j < |calls| ==> calls[i].now <= calls[j].now
  }

  /** A mark outlives every call before it expires. */
  lemma {:induction false} MarkStays(c: Setup, calls: seq<Call>, from: nat, n: nat, id: string, until: Time)
    requires from <= n <= |calls| && AlreadyUntil(GuardAt(c, calls, from), id, until)
    requires forall k :: from <= k < n ==> calls[k].now < until
    ensures AlreadyUntil(GuardAt(c, calls, n), id, until)
    decreases n
  {
    hide Screen;
    if from < n { MarkStays(c, calls, from, n - 1, id, until); }
  }

  predicate AlreadyUntil(seen: Seen, id: string, until: Time) {
    id in seen && seen[id] == until
  }

  lemma AcceptedMarks(c: Setup, calls: seq<Call>, i: nat)
    requires i < |calls| && AnswerAt(c, calls, i).Ok? && c.replayTTL > 0
    ensures AlreadyUntil(GuardAt(c, calls, i + 1), TrimSpace(AnswerAt(c, calls, i).value.id), calls[i].now + c.replayTTL)
    ensures EventTime(calls[i].message).Some?
    ensures InWindow(c, calls[i].now, EventTime(calls[i].message).value)
  {
    Screened(c, calls[i].message, calls[i].now);
    hide Screen, EventTime, InWindow;
  }

  lemma KnownRejects(c: Setup, calls: seq<Call>, k: nat, id: string, until: Time)
    requires k < |calls| && AlreadyUntil(GuardAt(c, calls, k), id, until) && calls[k].now < until
    ensures AnswerAt(c, calls, k).Ok? ==> TrimSpace(AnswerAt(c, calls, k).value.id) != id
  {
    hide Screen;
  }

  /** An earlier call with this event id was accepted less than a replay memory ago. */
  ghost predicate Recent(c: Setup, calls: seq<Call>, k: nat, id: string)
    requires k < |calls|
  {
    exists j: nat :: j < k && AcceptedAs(c, calls, j, id) && calls[k].now < calls[j].now + c.replayTTL
  }

  predicate AcceptedAs(c: Setup, calls: seq<Call>, j: nat, id: string)
    requires j < |calls|
  {
    AnswerAt(c, calls, j).Ok? && TrimSpace(AnswerAt(c, calls, j).value.id) == id
  }

  /** What the guard has in mind stems from an accepted call. */
  lemma {:induction false} MarkStems(c: Setup, calls: seq<Call>, n: nat, id: string) returns (j: nat)
    requires c.replayTTL > 0 && n <= |calls| && id in GuardAt(c, calls, n)
    ensures j < n && AcceptedAs(c, calls, j, id) && GuardAt(c, calls, n)[id] == calls[j].now + c.replayTTL
  {
    hide Screen, TrimSpace;
    if id in GuardAt(c, calls, n - 1) && GuardAt(c, calls, n - 1)[id] == GuardAt(c, calls, n)[id] {
      j := MarkStems(c, calls, n - 1, id);
    } else {
      j := n - 1;
    }
  }

  lemma RecentExactly(c: Setup, calls: seq<Call>, k: nat, id: string)
    requires c.replayTTL > 0 && ClockForward(calls) && k < |calls|
    ensures AlreadySeen(GuardAt(c, calls, k), id, calls[k].now) <==> Recent(c, calls, k, id)
  {
    hide AnswerAt, GuardAt, EventTime, TrimSpace, InWindow;
    if AlreadySeen(GuardAt(c, calls, k), id, calls[k].now) {
      var j := MarkStems(c, calls, k, id);
    }
    if j: nat :| j < k && AcceptedAs(c, calls, j, id) && calls[k].now < calls[j].now + c.replayTTL {
      AcceptedMarks(c, calls, j);
      MarkStays(c, calls, j + 1, k, id, calls[j].now + c.replayTTL);
    }
  }

  /**
   * With a clock that never goes back a call is accepted exactly when its message is authentic, its signed instant is
   * in the window, and no call with its event id was accepted less than a replay memory before.
   */
  lemma AcceptedExactly(c: Setup, calls: seq<Call>, k: nat)
    requires WindowOk(c) && ClockForward(calls) && k < |calls|
    ensures var m, now, r := calls[k].message, calls[k].now, AnswerAt(c, calls, k);
            && (r.Ok? <==>
                 && Authentic(c, m)
                 && var at := EventTime(m).value;
                    (at - c.allowedSkew <= now <= at + c.allowedSkew || Saturates(c, now, at))
                    && !Recent(c, calls, k, EventID(c, m)))
            && (r.Ok? ==> Some(r.value) == c.decode(m.body))
  {
    var m, now := calls[k].message, calls[k].now;
    ScreenExact(c, m, now);
    hide Screen, InWindow, Signed, EventTime, GuardAt, Recent, AlreadySeen, TrimSpace;
    if EventTime(m).Some? { WindowExact(c, now, EventTime(m).value); }
    if HasEvent(c, m) { RecentExactly(c, calls, k, EventID(c, m)); }
  }

  /** And which check a refused call fails, the first of them in this order. */
  lemma RefusedExactly(c: Setup, calls: seq<Call>, k: nat)
    requires WindowOk(c) && ClockForward(calls) && k < |calls|
    ensures var m, now, r := calls[k].message, calls[k].now, AnswerAt(c, calls, k);
            && (r == Err(MissingTimestamp) <==> Blank(m.timestamp))
            && (r == Err(MissingSignature) <==> !Blank(m.timestamp) && Blank(m.signature))
            && (r == Err(TimestampOutOfWindow) <==> !Blank(m.timestamp) && !Blank(m.signature) && !InTime(c, m, now))
            && (r == Err(InvalidSignatureShape) <==> !Blank(m.signature) && InTime(c, m, now) && !CarriesSome(m))
            && (r == Err(InvalidSignature) <==> InTime(c, m, now) && CarriesSome(m) && !Signed(c, m))
            && (r == Err(InvalidEventPayload) <==> InTime(c, m, now) && Signed(c, m) && c.decode(m.body).None?)
            && (r == Err(MissingEventID) <==>
                InTime(c, m, now) && Signed(c, m) && c.decode(m.body).Some? && !HasEvent(c, m))
            && (r == Err(ReplayDetected) <==>
                InTime(c, m, now) && Authentic(c, m) && Recent(c, calls, k, EventID(c, m)))
  {
    var m := calls[k].message;
    ScreenRefuses(c, m, calls[k].now);
    ScreenExact(c, m, calls[k].now);
    hide Screen, InTime, Signed, EventTime, GuardAt, Recent, AlreadySeen, TrimSpace, CarriesSome;
    if HasEvent(c, m) { RecentExactly(c, calls, k, EventID(c, m)); }
  }

  /** An event id accepted once is accepted again only a whole replay memory later. */
  lemma AcceptedApart(c: Setup, calls: seq<Call>, i: nat, j: nat)
    requires c.replayTTL > 0 && ClockForward(calls) && i < j < |calls|
    requires AnswerAt(c, calls, i).Ok? && AnswerAt(c, calls, j).Ok?
    requires TrimSpace(AnswerAt(c, calls, i).value.id) == TrimSpace(AnswerAt(c, calls, j).value.id)
    ensures calls[j].now >= calls[i].now + c.replayTTL
  {
    hide AnswerAt, GuardAt, EventTime, TrimSpace, AlreadyUntil, InWindow;
    var id, until := TrimSpace(AnswerAt(c, calls, i).value.id), calls[i].now + c.replayTTL;
    AcceptedMarks(c, calls, i);
    if calls[j].now < until {
      MarkStays(c, calls, i + 1, j, id, until);
      KnownRejects(c, calls, j, id, until);
    }
  }

  /**
   * Two calls that agree on event id and signed instant are never both accepted, when the clock is less than about
   * 292 years before that instant.
   */
  lemma NotAcceptedTwice(c: Setup, calls: seq<Call>, i: nat, j: nat)
    requires WindowOk(c) && c.replayTTL > 2 * c.allowedSkew && ClockForward(calls) && i < j < |calls|
    requires EventTime(calls[i].message) == EventTime(calls[j].message)
    requires AnswerAt(c, calls, i).Ok? && AnswerAt(c, calls, j).Ok?
    requires EventTime(calls[i].message).Some? ==> calls[i].now > EventTime(calls[i].message).value + MIN_DURATION
    ensures TrimSpace(AnswerAt(c, calls, i).value.id) != TrimSpace(AnswerAt(c, calls, j).value.id)
  {
    AcceptedMarks(c, calls, i);
    AcceptedMarks(c, calls, j);
    var at := EventTime(calls[i].message).value;
    WindowExact(c, calls[i].now, at);
    WindowExact(c, calls[j].now, at);
    hide AnswerAt, GuardAt, EventTime, TrimSpace, AlreadyUntil, InWindow;
    if TrimSpace(AnswerAt(c, calls, i).value.id) == TrimSpace(AnswerAt(c, calls, j).value.id) {
      AcceptedApart(c, calls, i, j);
    }
  }

  lemma Screened(c: Setup, m: Message, now: Time)
    requires Screen(c, m, now).Ok?
    ensures EventTime(m).Some? && InWindow(c, now, EventTime(m).value)
    ensures c.decode(m.body).Some? && Screen(c, m, now).value == c.decode(m.body).value
  {}

  lemma AuthenticPasses(c: Setup, m: Message, now: Time)
    requires Authentic(c, m) && InWindow(c, now, EventTime(m).value)
    ensures Screen(c, m, now) == Ok(c.decode(m.body).value)
  {
    ScreenExact(c, m, now);
    hide Screen, InWindow, Signed, EventTime;
  }

  /** Some run with a forward clock, none of whose readings is before `from`, accepts the message twice. */
  ghost predicate AcceptedTwice(c: Setup, m: Message, from: Time) {
    exists calls, i, j :: TwiceIn(c, m, from, calls, i, j)
  }

  ghost predicate TwiceIn(c: Setup, m: Message, from: Time, calls: seq<Call>, i: nat, j: nat) {
    && ClockForward(calls) && (forall k :: 0 <= k < |calls| ==> calls[k].now >= from)
    && i < j < |calls| && calls[i].message == m == calls[j].message
    && AnswerAt(c, calls, i).Ok? && AnswerAt(c, calls, j).Ok?
  }

  /** The message gets through again a whole replay memory later. */
  lemma TwoCalls(c: Setup, m: Message, from: Time, first: Time, second: Time)
    requires Authentic(c, m) && c.replayTTL > 0 && from <= first && first + c.replayTTL <= second
    requires InWindow(c, first, EventTime(m).value) && InWindow(c, second, EventTime(m).value)
    ensures AcceptedTwice(c, m, from)
  {
    var calls := [Call(m, first), Call(m, second)];
    AuthenticPasses(c, m, first);
    AuthenticPasses(c, m, second);
    var id := TrimSpace(c.decode(m.body).value.id);
    hide Screen, Authentic, EventTime, InWindow;
    assert GuardAt(c, calls, 0) == map[];
    assert GuardAt(c, calls, 1) == Marked(map[], id, first, c.replayTTL);
    assert TwiceIn(c, m, from, calls, 0, 1);
  }

  lemma TwiceApart(c: Setup, m: Message, from: Time, calls: seq<Call>, i: nat, j: nat)
    requires WindowOk(c) && TwiceIn(c, m, from, calls, i, j)
    ensures EventTime(m).Some? && InWindow(c, calls[i].now, EventTime(m).value) && InWindow(c, calls[j].now, EventTime(m).value)
    ensures calls[j].now >= calls[i].now + c.replayTTL && calls[i].now >= from
  {
    Screened(c, m, calls[i].now);
    Screened(c, m, calls[j].now);
    hide Screen, InWindow, EventTime;
    AcceptedApart(c, calls, i, j);
  }

  function Later(a: Time, b: Time): Time {
    if a < b then b else a
  }

  /**
   * For a clock that starts at `from`, an authentic message can be accepted twice, with whatever other calls in
   * between, exactly when what is left of its timestamp window holds a whole replay memory, or when the window check
   * saturates: with the largest skew there is, or for an instant so far ahead that its distance has no opposite.
   */
  lemma AcceptedTwiceExactly(c: Setup, m: Message, from: Time)
    requires Authentic(c, m) && WindowOk(c)
    ensures var at := EventTime(m).value;
            AcceptedTwice(c, m, from) <==>
            at + c.allowedSkew - Later(from, at - c.allowedSkew) >= c.replayTTL || Saturates(c, from, at)
  {
    var at := EventTime(m).value;
    hide Authentic, EventTime, InWindow;
    if AcceptedTwice(c, m, from) {
      var calls: seq<Call>, i: nat, j: nat :| TwiceIn(c, m, from, calls, i, j);
      TwiceApart(c, m, from, calls, i, j);
      WindowExact(c, calls[i].now, at);
      WindowExact(c, calls[j].now, at);
    }
    var first, second := Later(from, at - c.allowedSkew), at + c.allowedSkew;
    WindowExact(c, second, at);
    if Saturates(c, from, at) {
      var again := Later(second, from + c.replayTTL);
      WindowExact(c, from, at);
      WindowExact(c, again, at);
      TwoCalls(c, m, from, from, again);
    } else if second - first >= c.replayTTL {
      WindowExact(c, first, at);
      TwoCalls(c, m, from, first, second);
    }
  }

  /**
   * Unless the clock starts about 292 years before the signed instant, an authentic message is accepted at most once
   * in every run exactly when the replay memory is longer than the two halves of the timestamp window together.
   */
  lemma AtMostOnceExactly(c: Setup, m: Message)
    requires Authentic(c, m) && WindowOk(c)
    ensures (forall from :: from > EventTime(m).value + MIN_DURATION ==> !AcceptedTwice(c, m, from))
            <==> c.replayTTL > 2 * c.allowedSkew
  {
    var at := EventTime(m).value;
    hide Authentic, EventTime, AcceptedTwice;
    forall from | from > at + MIN_DURATION && c.replayTTL > 2 * c.allowedSkew ensures !AcceptedTwice(c, m, from) {
      AcceptedTwiceExactly(c, m, from);
    }
    AcceptedTwiceExactly(c, m, at - c.allowedSkew);
  }
}
