/** Submissions with one scoped idempotency key, over whole runs and restarts. */
module JobIdempotency {
  import opened Text
  import opened Jobs
  import opened JobMachine
  import opened JobInvariants

  lemma EntryStep(s: System, step: Step, key: string)
    requires SystemOk(s) && Enabled(s, step) && key in s.mem.idempotency
    ensures key in Apply(s, step).mem.idempotency
    ensures Apply(s, step).mem.idempotency[key] == s.mem.idempotency[key]
  {
    hide StateOk, TokensOk, TargetChange;
    if Plain(step) { MemAfter(s, step); hide Apply; }
  }

  lemma {:induction false} RunKeepsEntry(states: seq<System>, steps: seq<Step>, from: nat, k: nat, key: string)
    requires IsRun(states, steps) && SystemOk(states[0]) && from <= k <= |steps|
    requires key in states[from].mem.idempotency
    ensures key in states[k].mem.idempotency && states[k].mem.idempotency[key] == states[from].mem.idempotency[key]
  {
    hide Apply, Enabled, SystemOk;
    if from < k {
      RunKeepsEntry(states, steps, from, k - 1, key);
      RunKeepsOk(states, steps, k - 1);
      RunStep(states, steps, k - 1);
      EntryStep(states[k - 1], steps[k - 1], key);
    }
  }

  predicate AcceptsKeyed(s: System, step: Step) {
    step.SubmitJob? && KeyOf(step.sub) != "" && SubmitAnswer(s.mem, s.cfg, step.sub, step.t).Accepted?
  }

  function AcceptedId(s: System, step: Step): string
    requires AcceptsKeyed(s, step)
  {
    SubmitAnswer(s.mem, s.cfg, step.sub, step.t).job.id
  }

  lemma AcceptedEntry(s: System, step: Step)
    requires SystemOk(s) && Enabled(s, step) && AcceptsKeyed(s, step)
    ensures var entry := IdempotencyEntry(step.sub.payloadHash, AcceptedId(s, step));
            KeyOf(step.sub) in Apply(s, step).mem.idempotency
            && Apply(s, step).mem.idempotency[KeyOf(step.sub)] == entry
  {
    if KnownKey(s.mem, step.sub) { assert EntryOk(s.mem, KeyOf(step.sub)); }
  }

  /** How a submit whose key has been recorded is answered. */
  lemma EntryAnswers(s: System, sub: Submission, t: Time, entry: IdempotencyEntry)
    requires SystemOk(s) && KeyOf(sub) != "" && KeyOf(sub) in s.mem.idempotency && s.mem.idempotency[KeyOf(sub)] == entry
    ensures entry.jobID in s.mem.jobs && s.mem.jobs[entry.jobID].id == entry.jobID
    ensures SubmitState(s.mem, s.cfg, sub, t) == s.mem
    ensures SubmitAnswer(s.mem, s.cfg, sub, t) ==
            if sub.payloadHash == entry.payloadHash then Accepted(s.mem.jobs[entry.jobID]) else Mismatch
  {
    hide TokensOk, ScopedKey;
    assert EntryOk(s.mem, KeyOf(sub));
  }

  /**
   * Once a keyed submit is accepted, every later submit with that scoped key, after any steps and restarts,
   * is answered with the same job if its payload is the same and with a mismatch otherwise, and creates nothing.
   */
  lemma IdempotentSubmission(states: seq<System>, steps: seq<Step>, i: nat, k: nat, sub: Submission, t: Time)
    requires IsRun(states, steps) && Reachable(states[0]) && i < k <= |steps|
    requires AcceptsKeyed(states[i], steps[i]) && KeyOf(sub) == KeyOf(steps[i].sub)
    ensures var s, id := states[k], AcceptedId(states[i], steps[i]);
            && id in s.mem.jobs && s.mem.jobs[id].id == id
            && SubmitState(s.mem, s.cfg, sub, t) == s.mem
            && SubmitAnswer(s.mem, s.cfg, sub, t) ==
               if sub.payloadHash == steps[i].sub.payloadHash then Accepted(s.mem.jobs[id]) else Mismatch
  {
    hide Apply, Enabled, Reachable, SystemOk, SubmitAnswer, SubmitState, KeyOf;
    ReachableOk(states[0]);
    RunKeepsOk(states, steps, i);
    RunStep(states, steps, i);
    AcceptedEntry(states[i], steps[i]);
    RunKeepsEntry(states, steps, i + 1, k, KeyOf(sub));
    RunKeepsOk(states, steps, k);
    EntryAnswers(states[k], sub, t, states[k].mem.idempotency[KeyOf(sub)]);
  }

  // ---- scopes ---------------------------------------------------------------------------

  ghost predicate HasDoubleColon(s: string) {
    exists i :: 0 <= i && i + 1 < |s| && s[i] == ':' == s[i + 1]
  }

  /** An id the `::` separator cannot be mistaken inside of; every colon-free id is one. */
  ghost predicate Separable(id: string) {
    !HasDoubleColon(id + ":")
  }

  lemma ColonFreeIsSeparable(id: string)
    requires ':' !in id
    ensures Separable(id)
  {
    forall i | 0 <= i && i + 1 < |id + ":"| ensures (id + ":")[i] != ':' {
      assert (id + ":")[i] == id[i] && id[i] in id;
    }
  }

  /** A shorter id before the same text leaves a separator inside the longer one. */
  lemma SeparatorInside(a: string, x: string, b: string, y: string)
    requires a + "::" + x == b + "::" + y
    ensures |a| < |b| ==> HasDoubleColon(b + ":")
  {
    var s := a + "::" + x;
    if |a| < |b| {
      assert (b + ":")[|a|] == s[|a|] == ':' && (b + ":")[|a| + 1] == s[|a| + 1] == ':';
    }
  }

  lemma SeparatorFound(a: string, x: string, b: string, y: string)
    requires Separable(a) && Separable(b) && a + "::" + x == b + "::" + y
    ensures a == b && x == y
  {
    hide HasDoubleColon;
    SeparatorInside(a, x, b, y);
    SeparatorInside(b, y, a, x);
    var s := a + "::" + x;
    assert a == s[..|a|] == b;
    assert x == s[|a| + 2..] == y;
  }

  /** For separable ids the scoped key determines the tenant, the project and the trimmed key, and conversely. */
  lemma ScopedKeyExact(t1: string, p1: string, raw1: string, t2: string, p2: string, raw2: string)
    requires Separable(t1) && Separable(p1) && Separable(t2) && Separable(p2)
    requires ScopedKey(t1, p1, raw1) != ""
    ensures ScopedKey(t1, p1, raw1) == ScopedKey(t2, p2, raw2) <==>
            t1 == t2 && p1 == p2 && TrimSpace(raw1) == TrimSpace(raw2)
  {
    var k1, k2 := TrimSpace(raw1), TrimSpace(raw2);
    if ScopedKey(t1, p1, raw1) == ScopedKey(t2, p2, raw2) {
      assert t1 + "::" + p1 + "::" + k1 == t1 + "::" + (p1 + "::" + k1);
      assert t2 + "::" + p2 + "::" + k2 == t2 + "::" + (p2 + "::" + k2);
      SeparatorFound(t1, p1 + "::" + k1, t2, p2 + "::" + k2);
      SeparatorFound(p1, k1, p2, k2);
    }
  }

  // ---- which scopes share keys ------------------------------------------------------------

  datatype Scope = Scope(tenantID: string, projectID: string)

  function JobScope(j: JobRecord): Scope {
    Scope(j.tenantID, j.projectID)
  }

  function SubScope(sub: Submission): Scope {
    Scope(sub.tenantID, sub.projectID)
  }

  /** What every scoped key of a scope begins with. */
  function KeyPrefix(a: Scope): string {
    a.tenantID + "::" + a.projectID + "::"
  }

  function KeyIn(a: Scope, raw: string): string {
    ScopedKey(a.tenantID, a.projectID, raw)
  }

  /** `u` continues to `v`, and not with a space. */
  predicate Continues(u: string, v: string) {
    |u| <= |v| && v[..|u|] == u && (|u| < |v| ==> !IsSpace(v[|u|]))
  }

  /** What a caller can check about two scopes: one key prefix continues to the other. */
  predicate Collide(a: Scope, b: Scope) {
    Continues(KeyPrefix(a), KeyPrefix(b)) || Continues(KeyPrefix(b), KeyPrefix(a))
  }

  ghost predicate ShareKey(a: Scope, b: Scope) {
    exists rawA, rawB :: KeyIn(a, rawA) != "" && KeyIn(a, rawA) == KeyIn(b, rawB)
  }

  lemma KeyInPrefix(a: Scope, raw: string)
    ensures KeyIn(a, raw) == if TrimSpace(raw) == "" then "" else KeyPrefix(a) + TrimSpace(raw)
    ensures TrimSpace(raw) != "" ==> KeyIn(a, raw) != ""
  {
    assert KeyPrefix(a) != "";
  }

  lemma SharedContinues(u: string, k: string, v: string, l: string)
    requires u + k == v + l && k != "" && Bare(k, IsSpace) && |u| <= |v|
    ensures Continues(u, v)
  {
    var whole := u + k;
    assert v == whole[..|v|] && u == whole[..|u|];
    if |u| < |v| { assert v[|u|] == whole[|u|] == k[0]; }
  }

  /** A key of the shorter prefix's scope that is also one of the longer prefix's scope. */
  lemma ContinuesShared(a: Scope, b: Scope) returns (rawA: string, rawB: string)
    requires Continues(KeyPrefix(a), KeyPrefix(b))
    ensures KeyIn(a, rawA) != "" && KeyIn(a, rawA) == KeyIn(b, rawB)
  {
    var u, v := KeyPrefix(a), KeyPrefix(b);
    rawA, rawB := v[|u|..] + "k", "k";
    KeyInPrefix(a, rawA);
    KeyInPrefix(b, rawB);
    TrimOfBare(rawA, IsSpace);
    TrimOfBare(rawB, IsSpace);
    assert u + (v[|u|..] + "k") == v + "k";
    hide KeyIn, KeyPrefix;
  }

  /** Two scopes share a key exactly when they collide. */
  lemma ScopesShareExactly(a: Scope, b: Scope)
    ensures ShareKey(a, b) <==> Collide(a, b)
  {
    if rawA, rawB :| KeyIn(a, rawA) != "" && KeyIn(a, rawA) == KeyIn(b, rawB) {
      KeyInPrefix(a, rawA);
      KeyInPrefix(b, rawB);
      TrimBare(rawA, IsSpace);
      TrimBare(rawB, IsSpace);
      hide KeyIn, KeyPrefix, Continues, Trim;
      var k, l := TrimSpace(rawA), TrimSpace(rawB);
      if |KeyPrefix(a)| <= |KeyPrefix(b)| {
        SharedContinues(KeyPrefix(a), k, KeyPrefix(b), l);
      } else {
        SharedContinues(KeyPrefix(b), l, KeyPrefix(a), k);
      }
    }
    hide KeyIn, KeyPrefix;
    if Continues(KeyPrefix(a), KeyPrefix(b)) {
      var rawA, rawB := ContinuesShared(a, b);
    } else if Continues(KeyPrefix(b), KeyPrefix(a)) {
      var rawB, rawA := ContinuesShared(b, a);
    }
  }

  /** Different scopes of separable ids never collide. */
  lemma SeparableScopesApart(a: Scope, b: Scope)
    requires Separable(a.tenantID) && Separable(a.projectID) && Separable(b.tenantID) && Separable(b.projectID)
    requires Collide(a, b)
    ensures a == b
  {
    ScopesShareExactly(a, b);
    hide Collide;
    var rawA, rawB :| KeyIn(a, rawA) != "" && KeyIn(a, rawA) == KeyIn(b, rawB);
    ScopedKeyExact(a.tenantID, a.projectID, rawA, b.tenantID, b.projectID, rawB);
    hide Separable;
  }

  // ---- what the server answers -----------------------------------------------------------------

  /** An accepted submit is answered with a job of the caller's scope unless some job's scope collides with it. */
  lemma ReplyStaysInScope(s: System, sub: Submission, t: Time)
    requires Reachable(s)
    requires forall id :: id in s.mem.jobs && Collide(JobScope(s.mem.jobs[id]), SubScope(sub)) ==>
                            InScope(s.mem.jobs[id], sub.tenantID, sub.projectID)
    ensures var answer := SubmitAnswer(s.mem, s.cfg, sub, t);
            answer.Accepted? ==> InScope(answer.job, sub.tenantID, sub.projectID)
  {
    hide Reachable, TokensOk, ScopedKey, Collide;
    ReachableOk(s);
    if KnownKey(s.mem, sub) {
      assert EntryOk(s.mem, KeyOf(sub));
      var j := s.mem.jobs[s.mem.idempotency[KeyOf(sub)].jobID];
      var raw :| KeyOf(sub) == ScopedKey(j.tenantID, j.projectID, raw);
      assert KeyIn(JobScope(j), raw) == KeyIn(SubScope(sub), sub.idempotencyKey) != "";
      ScopesShareExactly(JobScope(j), SubScope(sub));
    }
  }

  /** Some submit of scope `b` is answered with a job of scope `a`. */
  ghost predicate AnsweredAcross(s: System, a: Scope, b: Scope) {
    exists sub, t :: AnswersAcross(s, a, b, sub, t)
  }

  predicate AnswersAcross(s: System, a: Scope, b: Scope, sub: Submission, t: Time) {
    && SubScope(sub) == b
    && var answer := SubmitAnswer(s.mem, s.cfg, sub, t);
       answer.Accepted? && JobScope(answer.job) == a
  }

  function Brief(a: Scope, raw: string): Submission {
    Submission(a.tenantID, a.projectID, raw, "h", "e", "n", "y", "2026-01-01", None)
  }

  const START := System(EMPTY, EMPTY, Config(1, 1, 1), [], multiset{}, Idle, 0, map[], map[], 0, {})

  lemma SecondAnswered(a: Scope, rawA: string, b: Scope, rawB: string)
    requires KeyIn(a, rawA) != "" && KeyIn(a, rawA) == KeyIn(b, rawB)
    ensures exists s :: Reachable(s) && AnsweredAcross(s, a, b)
  {
    hide ScopedKey;
    var first, second := Brief(a, rawA), Brief(b, rawB);
    var s := Apply(START, SubmitJob(first, 0));
    var states, steps := [START, s], [SubmitJob(first, 0)];
    assert IsRun(states, steps) && Init(states[0]) && states[|steps|] == s;
    assert Reachable(s);
    assert AnswersAcross(s, a, b, second, 0);
  }

  lemma AcrossShares(s: System, a: Scope, b: Scope, sub: Submission, t: Time)
    requires Reachable(s) && AnswersAcross(s, a, b, sub, t) && a != b
    ensures Collide(a, b)
  {
    hide Reachable, TokensOk, ScopedKey, Collide;
    ReachableOk(s);
    assert KnownKey(s.mem, sub);
    assert EntryOk(s.mem, KeyOf(sub));
    var j := s.mem.jobs[s.mem.idempotency[KeyOf(sub)].jobID];
    var raw :| KeyOf(sub) == ScopedKey(j.tenantID, j.projectID, raw);
    assert KeyIn(a, raw) == KeyIn(b, sub.idempotencyKey) != "";
    ScopesShareExactly(a, b);
  }

  /** A submit of one scope can be answered with a job of another exactly when the two scopes collide. */
  lemma AnswersAcrossExactly(a: Scope, b: Scope)
    requires a != b
    ensures (exists s :: Reachable(s) && AnsweredAcross(s, a, b)) <==> Collide(a, b)
  {
    hide Reachable, Collide, AnswersAcross, KeyIn;
    if s :| Reachable(s) && AnsweredAcross(s, a, b) {
      var sub, t :| AnswersAcross(s, a, b, sub, t);
      AcrossShares(s, a, b, sub, t);
    }
    if Collide(a, b) {
      ScopesShareExactly(a, b);
      var rawA, rawB :| KeyIn(a, rawA) != "" && KeyIn(a, rawA) == KeyIn(b, rawB);
      SecondAnswered(a, rawA, b, rawB);
    }
  }

  /** A tenant id that hides the separator makes a scope collide with another one. */
  lemma HiddenSeparatorCollides(x: string, y: string, p: string)
    ensures !Separable(x + "::" + y)
    ensures Collide(Scope(x + "::" + y, p), Scope(x, y + "::" + p))
  {
    var tenant := x + "::" + y;
    assert (tenant + ":")[|x|] == ':' == (tenant + ":")[|x| + 1];
    assert KeyPrefix(Scope(tenant, p)) == x + "::" + (y + "::" + p) + "::" == KeyPrefix(Scope(x, y + "::" + p));
  }
}
