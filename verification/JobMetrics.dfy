/** What a metrics snapshot counts, and that it loses and invents no job. */
module JobMetrics {
  import opened Text
  import opened Jobs
  import opened Sums
  import JobMachine
  import JobInvariants
  import JobTheorems

  datatype TenantMetrics = TenantMetrics(
    tenantID: string, projectID: string, jobsTotal: int,
    queued: int, running: int, succeeded: int, failed: int, canceled: int, expired: int,
    retryCount: int, estimatedTokens: int)

  const NO_METRICS := TenantMetrics("", "", 0, 0, 0, 0, 0, 0, 0, 0, 0)

  datatype Snapshot = Snapshot(
    queueDepth: nat, jobsTotal: nat, dlqTotal: nat,
    byStatus: map<Status, int>, byTenant: map<string, TenantMetrics>)

  const STATUSES := {Queued, Running, Succeeded, Failed, Canceled, Expired}

  function TenantKey(j: JobRecord): string {
    j.tenantID + "::" + j.projectID
  }

  function Retried(j: JobRecord): int {
    if j.attempt - 1 > 0 then j.attempt - 1 else 0
  }

  /** The length Go measures: bytes of the UTF-8 form. */
  function ByteLength(s: string): nat {
    if s == "" then 0
    else
      var c := s[0] as int;
      (if c < 0x80 then 1 else if c < 0x800 then 2 else if c < 0x1_0000 then 3 else 4) + ByteLength(s[1..])
  }

  function EstimateTokens(text: string): int {
    var trimmed := TrimSpace(text);
    if trimmed == "" then 0 else (ByteLength(trimmed) + 3) / 4
  }

  function AnswerTokens(j: JobRecord): int {
    if j.result.None? then 0 else EstimateTokens(j.result.value.answer)
  }

  function CountOf(t: TenantMetrics, s: Status): int {
    match s
    case Queued => t.queued
    case Running => t.running
    case Succeeded => t.succeeded
    case Failed => t.failed
    case Canceled => t.canceled
    case Expired => t.expired
  }

  // ---- the reference counts --------------------------------------------------------

  function One(p: bool): int {
    if p then 1 else 0
  }

  function HasStatus(jobs: map<string, JobRecord>, s: Status): string -> int {
    id => One(id in jobs && jobs[id].status == s)
  }

  function InTenant(jobs: map<string, JobRecord>, key: string): string -> int {
    id => One(id in jobs && TenantKey(jobs[id]) == key)
  }

  function InTenantWith(jobs: map<string, JobRecord>, key: string, s: Status): string -> int {
    id => One(id in jobs && TenantKey(jobs[id]) == key && jobs[id].status == s)
  }

  function TenantRetries(jobs: map<string, JobRecord>, key: string): string -> int {
    id => if id in jobs && TenantKey(jobs[id]) == key then Retried(jobs[id]) else 0
  }

  function TenantTokens(jobs: map<string, JobRecord>, key: string): string -> int {
    id => if id in jobs && TenantKey(jobs[id]) == key then AnswerTokens(jobs[id]) else 0
  }

  /** The tenant line counts exactly the jobs of `ids` under its key, and names the scope of one of them. */
  ghost predicate TenantCounts(jobs: map<string, JobRecord>, ids: set<string>, key: string, t: TenantMetrics) {
    && t.jobsTotal == Sum(ids, InTenant(jobs, key))
    && t.retryCount == Sum(ids, TenantRetries(jobs, key))
    && t.estimatedTokens == Sum(ids, TenantTokens(jobs, key))
    && (forall s :: CountOf(t, s) == Sum(ids, InTenantWith(jobs, key, s)))
    && (exists id :: id in ids && NamedBy(jobs, id, key, t))
  }

  predicate NamedBy(jobs: map<string, JobRecord>, id: string, key: string, t: TenantMetrics) {
    id in jobs && TenantKey(jobs[id]) == key && t.tenantID == jobs[id].tenantID && t.projectID == jobs[id].projectID
  }

  ghost predicate StatusesCounted(jobs: map<string, JobRecord>, ids: set<string>, byStatus: map<Status, int>) {
    byStatus.Keys == STATUSES && forall s :: s in byStatus ==> byStatus[s] == Sum(ids, HasStatus(jobs, s))
  }

  /** There is a tenant line for exactly the keys of the jobs. */
  ghost predicate KeysCounted(jobs: map<string, JobRecord>, ids: set<string>, keys: set<string>) {
    forall key :: key in keys <==> exists id :: id in ids && id in jobs && TenantKey(jobs[id]) == key
  }

  ghost predicate LinesCounted(jobs: map<string, JobRecord>, ids: set<string>, byTenant: map<string, TenantMetrics>) {
    forall key :: key in byTenant ==> TenantCounts(jobs, ids, key, byTenant[key])
  }

  ghost predicate Counts(
    jobs: map<string, JobRecord>, ids: set<string>,
    byStatus: map<Status, int>, byTenant: map<string, TenantMetrics>)
  {
    && StatusesCounted(jobs, ids, byStatus)
    && KeysCounted(jobs, ids, byTenant.Keys)
    && LinesCounted(jobs, ids, byTenant)
  }

  // ---- one more job -------------------------------------------------------------------

  function AddToTenant(t: TenantMetrics, j: JobRecord): TenantMetrics {
    TenantMetrics(
      j.tenantID, j.projectID, t.jobsTotal + 1,
      t.queued + One(j.status == Queued), t.running + One(j.status == Running), t.succeeded + One(j.status == Succeeded),
      t.failed + One(j.status == Failed), t.canceled + One(j.status == Canceled), t.expired + One(j.status == Expired),
      t.retryCount + Retried(j), t.estimatedTokens + AnswerTokens(j))
  }

  function TenantAt(byTenant: map<string, TenantMetrics>, key: string): TenantMetrics {
    if key in byTenant then byTenant[key] else NO_METRICS
  }

  lemma SumMore(ids: set<string>, id: string, f: string -> int)
    requires id !in ids
    ensures Sum(ids + {id}, f) == Sum(ids, f) + f(id)
  {
    SumRemove(ids + {id}, f, id);
    assert ids + {id} - {id} == ids;
  }

  lemma {:induction false} SumZero(ids: set<string>, f: string -> int)
    requires forall k :: k in ids ==> f(k) == 0
    ensures Sum(ids, f) == 0
  {
    if ids != {} {
      var k :| k in ids && Sum(ids, f) == f(k) + Sum(ids - {k}, f);
      SumZero(ids - {k}, f);
    }
  }

  /** A tenant line that does not exist yet counts nothing. */
  lemma AbsentTenant(jobs: map<string, JobRecord>, ids: set<string>, key: string)
    requires forall id :: id in ids && id in jobs ==> TenantKey(jobs[id]) != key
    ensures Sum(ids, InTenant(jobs, key)) == 0 && Sum(ids, TenantRetries(jobs, key)) == 0
    ensures Sum(ids, TenantTokens(jobs, key)) == 0
    ensures forall s :: Sum(ids, InTenantWith(jobs, key, s)) == 0
  {
    SumZero(ids, InTenant(jobs, key));
    SumZero(ids, TenantRetries(jobs, key));
    SumZero(ids, TenantTokens(jobs, key));
    forall s ensures Sum(ids, InTenantWith(jobs, key, s)) == 0 { SumZero(ids, InTenantWith(jobs, key, s)); }
  }

  lemma TenantMore(jobs: map<string, JobRecord>, ids: set<string>, byTenant: map<string, TenantMetrics>, id: string)
    requires id in jobs && id !in ids
    requires KeysCounted(jobs, ids, byTenant.Keys) && LinesCounted(jobs, ids, byTenant)
    ensures var key := TenantKey(jobs[id]);
            TenantCounts(jobs, ids + {id}, key, AddToTenant(TenantAt(byTenant, key), jobs[id]))
  {
    hide Sum, TenantKey, AnswerTokens;
    var key := TenantKey(jobs[id]);
    var t := AddToTenant(TenantAt(byTenant, key), jobs[id]);
    if key !in byTenant { AbsentTenant(jobs, ids, key); }
    SumMore(ids, id, InTenant(jobs, key));
    SumMore(ids, id, TenantRetries(jobs, key));
    SumMore(ids, id, TenantTokens(jobs, key));
    forall s ensures CountOf(t, s) == Sum(ids + {id}, InTenantWith(jobs, key, s)) {
      SumMore(ids, id, InTenantWith(jobs, key, s));
    }
    assert id in ids + {id} && NamedBy(jobs, id, key, t);
  }

  lemma OtherTenant(jobs: map<string, JobRecord>, ids: set<string>, id: string, key: string, t: TenantMetrics)
    requires id in jobs && id !in ids && TenantKey(jobs[id]) != key && TenantCounts(jobs, ids, key, t)
    ensures TenantCounts(jobs, ids + {id}, key, t)
  {
    hide Sum, TenantKey, AnswerTokens;
    SumMore(ids, id, InTenant(jobs, key));
    SumMore(ids, id, TenantRetries(jobs, key));
    SumMore(ids, id, TenantTokens(jobs, key));
    forall s ensures CountOf(t, s) == Sum(ids + {id}, InTenantWith(jobs, key, s)) {
      SumMore(ids, id, InTenantWith(jobs, key, s));
    }
    var w :| w in ids && NamedBy(jobs, w, key, t);
    assert w in ids + {id};
  }

  lemma NothingCounted(jobs: map<string, JobRecord>)
    ensures Counts(jobs, {}, map[Queued := 0, Running := 0, Succeeded := 0, Failed := 0, Canceled := 0, Expired := 0], map[])
  {
    forall s ensures Sum({}, HasStatus(jobs, s)) == 0 { SumZero({}, HasStatus(jobs, s)); }
  }

  /** Counting one more job, in whatever order the map yields them, keeps the counts exact. */
  lemma CountsMore(
    jobs: map<string, JobRecord>, ids: set<string>,
    byStatus: map<Status, int>, byTenant: map<string, TenantMetrics>, id: string)
    requires id in jobs && id !in ids && Counts(jobs, ids, byStatus, byTenant)
    ensures var j := jobs[id];
            j.status in byStatus &&
            Counts(jobs, ids + {id},
                   byStatus[j.status := byStatus[j.status] + 1],
                   byTenant[TenantKey(j) := AddToTenant(TenantAt(byTenant, TenantKey(j)), j)])
  {
    hide Sum, TenantKey, StatusesCounted, KeysCounted, LinesCounted, AddToTenant, TenantAt, TenantCounts;
    var j := jobs[id];
    StatusesMore(jobs, ids, byStatus, id);
    KeysMore(jobs, ids, byTenant.Keys, id);
    LinesMore(jobs, ids, byTenant, id);
    assert byTenant[TenantKey(j) := AddToTenant(TenantAt(byTenant, TenantKey(j)), j)].Keys == byTenant.Keys + {TenantKey(j)};
  }

  lemma StatusesMore(jobs: map<string, JobRecord>, ids: set<string>, byStatus: map<Status, int>, id: string)
    requires id in jobs && id !in ids && StatusesCounted(jobs, ids, byStatus)
    ensures var s := jobs[id].status;
            s in byStatus && StatusesCounted(jobs, ids + {id}, byStatus[s := byStatus[s] + 1])
  {
    hide Sum;
    var byStatus' := byStatus[jobs[id].status := byStatus[jobs[id].status] + 1];
    forall s | s in byStatus' ensures byStatus'[s] == Sum(ids + {id}, HasStatus(jobs, s)) {
      SumMore(ids, id, HasStatus(jobs, s));
    }
  }

  lemma KeysMore(jobs: map<string, JobRecord>, ids: set<string>, keys: set<string>, id: string)
    requires id in jobs && KeysCounted(jobs, ids, keys)
    ensures KeysCounted(jobs, ids + {id}, keys + {TenantKey(jobs[id])})
  {
    hide TenantKey;
    forall k ensures k in keys + {TenantKey(jobs[id])} <==>
                     exists x :: x in ids + {id} && x in jobs && TenantKey(jobs[x]) == k {
      if k in keys {
        var x :| x in ids && x in jobs && TenantKey(jobs[x]) == k;
        assert x in ids + {id};
      } else if k == TenantKey(jobs[id]) {
        assert id in ids + {id};
      }
    }
  }

  lemma LinesMore(jobs: map<string, JobRecord>, ids: set<string>, byTenant: map<string, TenantMetrics>, id: string)
    requires id in jobs && id !in ids && KeysCounted(jobs, ids, byTenant.Keys) && LinesCounted(jobs, ids, byTenant)
    ensures var j := jobs[id];
            LinesCounted(jobs, ids + {id}, byTenant[TenantKey(j) := AddToTenant(TenantAt(byTenant, TenantKey(j)), j)])
  {
    hide Sum, TenantKey, TenantCounts, AddToTenant, TenantAt, KeysCounted;
    var key := TenantKey(jobs[id]);
    TenantMore(jobs, ids, byTenant, id);
    forall k | k in byTenant && k != key ensures TenantCounts(jobs, ids + {id}, k, byTenant[k]) {
      OtherTenant(jobs, ids, id, k, byTenant[k]);
    }
  }

  // ---- conservation -----------------------------------------------------------------------

  function Totals(byTenant: map<string, TenantMetrics>): string -> int {
    key => if key in byTenant then byTenant[key].jobsTotal else 0
  }

  function AllSix(count: Status -> int): int {
    count(Queued) + count(Running) + count(Succeeded) + count(Failed) + count(Canceled) + count(Expired)
  }

  lemma {:induction false} StatusesSum(jobs: map<string, JobRecord>, ids: set<string>)
    requires ids <= jobs.Keys
    ensures AllSix(s => Sum(ids, HasStatus(jobs, s))) == |ids|
  {
    hide Sum;
    if ids == {} {
      forall s ensures Sum(ids, HasStatus(jobs, s)) == 0 { SumZero(ids, HasStatus(jobs, s)); }
    } else {
      var id :| id in ids;
      StatusesSum(jobs, ids - {id});
      StatusLess(jobs, ids, Queued, id);
      StatusLess(jobs, ids, Running, id);
      StatusLess(jobs, ids, Succeeded, id);
      StatusLess(jobs, ids, Failed, id);
      StatusLess(jobs, ids, Canceled, id);
      StatusLess(jobs, ids, Expired, id);
      hide HasStatus;
    }
  }

  lemma StatusLess(jobs: map<string, JobRecord>, ids: set<string>, s: Status, id: string)
    requires id in ids && id in jobs
    ensures Sum(ids, HasStatus(jobs, s)) == Sum(ids - {id}, HasStatus(jobs, s)) + One(jobs[id].status == s)
  {
    SumRemove(ids, HasStatus(jobs, s), id);
    hide Sum;
  }

  lemma {:induction false} TenantStatusesSum(jobs: map<string, JobRecord>, ids: set<string>, key: string)
    ensures AllSix(s => Sum(ids, InTenantWith(jobs, key, s))) == Sum(ids, InTenant(jobs, key))
  {
    hide Sum, TenantKey;
    if ids == {} {
      SumZero(ids, InTenant(jobs, key));
      forall s ensures Sum(ids, InTenantWith(jobs, key, s)) == 0 { SumZero(ids, InTenantWith(jobs, key, s)); }
    } else {
      var id :| id in ids;
      TenantStatusesSum(jobs, ids - {id}, key);
      SumRemove(ids, InTenant(jobs, key), id);
      SumRemove(ids, InTenantWith(jobs, key, Queued), id);
      SumRemove(ids, InTenantWith(jobs, key, Running), id);
      SumRemove(ids, InTenantWith(jobs, key, Succeeded), id);
      SumRemove(ids, InTenantWith(jobs, key, Failed), id);
      SumRemove(ids, InTenantWith(jobs, key, Canceled), id);
      SumRemove(ids, InTenantWith(jobs, key, Expired), id);
    }
  }

  ghost function TenantSizes(jobs: map<string, JobRecord>, ids: set<string>): string -> int {
    key => Sum(ids, InTenant(jobs, key))
  }

  /** Every job is in exactly one tenant line. */
  lemma {:induction false} TenantsPartition(jobs: map<string, JobRecord>, ids: set<string>, keys: set<string>)
    requires ids <= jobs.Keys && forall id :: id in ids ==> TenantKey(jobs[id]) in keys
    ensures Sum(keys, TenantSizes(jobs, ids)) == |ids|
  {
    hide Sum, TenantKey;
    if ids == {} {
      forall key ensures Sum(ids, InTenant(jobs, key)) == 0 { SumZero(ids, InTenant(jobs, key)); }
      SumZero(keys, TenantSizes(jobs, ids));
    } else {
      var id :| id in ids;
      var rest := ids - {id};
      TenantsPartition(jobs, rest, keys);
      SizesLess(jobs, ids, keys, id);
      hide TenantSizes, InTenant;
      SumChange(keys, TenantSizes(jobs, rest), TenantSizes(jobs, ids), TenantKey(jobs[id]));
    }
  }

  lemma SizesLess(jobs: map<string, JobRecord>, ids: set<string>, keys: set<string>, id: string)
    requires id in ids && id in jobs
    ensures forall key :: key in keys ==>
              TenantSizes(jobs, ids)(key) == TenantSizes(jobs, ids - {id})(key) + One(TenantKey(jobs[id]) == key)
  {
    hide Sum, TenantKey;
    forall key | key in keys
      ensures TenantSizes(jobs, ids)(key) == TenantSizes(jobs, ids - {id})(key) + One(TenantKey(jobs[id]) == key)
    {
      SumRemove(ids, InTenant(jobs, key), id);
    }
  }

  function RetriesOf(jobs: map<string, JobRecord>, key: string): string -> int {
    id => if id in jobs && TenantKey(jobs[id]) == key then jobs[id].attempt - 1 else 0
  }

  function StatusTotal(byStatus: map<Status, int>): int {
    AllSix(s => if s in byStatus then byStatus[s] else 0)
  }

  lemma StatusTotalExact(jobs: map<string, JobRecord>, byStatus: map<Status, int>, byTenant: map<string, TenantMetrics>)
    requires Counts(jobs, jobs.Keys, byStatus, byTenant)
    ensures StatusTotal(byStatus) == |jobs|
  {
    hide Sum, TenantKey, TenantCounts;
    StatusesSum(jobs, jobs.Keys);
    assert |jobs.Keys| == |jobs|;
  }

  lemma TenantTotalExact(jobs: map<string, JobRecord>, byStatus: map<Status, int>, byTenant: map<string, TenantMetrics>)
    requires Counts(jobs, jobs.Keys, byStatus, byTenant)
    ensures Sum(byTenant.Keys, Totals(byTenant)) == |jobs|
  {
    hide Sum, TenantKey, StatusesCounted, TenantCounts;
    forall id | id in jobs.Keys ensures TenantKey(jobs[id]) in byTenant.Keys {}
    hide KeysCounted;
    TenantsPartition(jobs, jobs.Keys, byTenant.Keys);
    TotalsAreSizes(jobs, byTenant);
    SumSame(byTenant.Keys, Totals(byTenant), TenantSizes(jobs, jobs.Keys));
    assert |jobs.Keys| == |jobs|;
  }

  lemma TotalsAreSizes(jobs: map<string, JobRecord>, byTenant: map<string, TenantMetrics>)
    requires LinesCounted(jobs, jobs.Keys, byTenant)
    ensures forall key :: key in byTenant ==> Totals(byTenant)(key) == TenantSizes(jobs, jobs.Keys)(key)
  {
    hide Sum, TenantKey;
    forall key | key in byTenant ensures Totals(byTenant)(key) == TenantSizes(jobs, jobs.Keys)(key) {
      assert TenantCounts(jobs, jobs.Keys, key, byTenant[key]);
    }
  }

  lemma TenantLineExact(jobs: map<string, JobRecord>, key: string, t: TenantMetrics)
    requires TenantCounts(jobs, jobs.Keys, key, t)
    requires forall id :: id in jobs ==> jobs[id].attempt >= 1
    ensures AllSix(s => CountOf(t, s)) == t.jobsTotal
    ensures t.retryCount == Sum(jobs.Keys, RetriesOf(jobs, key))
  {
    hide Sum, TenantKey;
    TenantStatusesSum(jobs, jobs.Keys, key);
    SumSame(jobs.Keys, TenantRetries(jobs, key), RetriesOf(jobs, key));
  }

  // ---- the line of a scope ----------------------------------------------------------------------

  ghost function KeyJobs(jobs: map<string, JobRecord>, ids: set<string>, key: string): set<string> {
    set id | id in ids && id in jobs && TenantKey(jobs[id]) == key
  }

  lemma {:induction false} SizeIsCard(jobs: map<string, JobRecord>, ids: set<string>, key: string)
    ensures Sum(ids, InTenant(jobs, key)) == |KeyJobs(jobs, ids, key)|
  {
    hide Sum, TenantKey;
    if ids == {} {
      SumZero(ids, InTenant(jobs, key));
      assert KeyJobs(jobs, ids, key) == {};
    } else {
      var id :| id in ids;
      var rest := ids - {id};
      SizeIsCard(jobs, rest, key);
      SumRemove(ids, InTenant(jobs, key), id);
      if id in jobs && TenantKey(jobs[id]) == key {
        assert KeyJobs(jobs, ids, key) == KeyJobs(jobs, rest, key) + {id};
      } else {
        assert KeyJobs(jobs, ids, key) == KeyJobs(jobs, rest, key);
      }
    }
  }

  /** The jobs of one tenant and project. */
  ghost function ScopeJobs(jobs: map<string, JobRecord>, tenantID: string, projectID: string): set<string> {
    set id | id in jobs && jobs[id].tenantID == tenantID && jobs[id].projectID == projectID
  }

  /** No job of another scope is written with the same joined text. */
  ghost predicate OwnLine(jobs: map<string, JobRecord>, tenantID: string, projectID: string) {
    forall id :: id in jobs && jobs[id].tenantID + "::" + jobs[id].projectID == tenantID + "::" + projectID ==>
      jobs[id].tenantID == tenantID && jobs[id].projectID == projectID
  }

  lemma SubsetCard(small: set<string>, large: set<string>)
    requires small <= large
    ensures |small| <= |large| && (|small| == |large| ==> small == large)
  {
    assert large == small + (large - small);
  }

  /**
   * The line `tenant::project` of an exact snapshot counts the jobs of that tenant and project, and no other ones if
   * and only if no other scope that has jobs joins to the same text.
   */
  lemma ScopeLineExactly(
    jobs: map<string, JobRecord>, byStatus: map<Status, int>, byTenant: map<string, TenantMetrics>,
    tenantID: string, projectID: string)
    requires Counts(jobs, jobs.Keys, byStatus, byTenant) && ScopeJobs(jobs, tenantID, projectID) != {}
    ensures tenantID + "::" + projectID in byTenant
    ensures byTenant[tenantID + "::" + projectID].jobsTotal >= |ScopeJobs(jobs, tenantID, projectID)|
    ensures byTenant[tenantID + "::" + projectID].jobsTotal == |ScopeJobs(jobs, tenantID, projectID)|
            <==> OwnLine(jobs, tenantID, projectID)
  {
    var key, own := tenantID + "::" + projectID, ScopeJobs(jobs, tenantID, projectID);
    var id :| id in own;
    hide Sum, StatusesCounted, OwnLine, KeyJobs, ScopeJobs;
    KeyOfScope(jobs, id, tenantID, projectID);
    assert key in byTenant.Keys by { hide LinesCounted; }
    assert TenantCounts(jobs, jobs.Keys, key, byTenant[key]) by { hide KeysCounted, TenantCounts; }
    hide KeysCounted, LinesCounted, TenantKey;
    SizeIsCard(jobs, jobs.Keys, key);
    OwnIsAll(jobs, tenantID, projectID);
    SubsetCard(own, KeyJobs(jobs, jobs.Keys, key));
  }

  lemma KeyOfScope(jobs: map<string, JobRecord>, id: string, tenantID: string, projectID: string)
    requires id in ScopeJobs(jobs, tenantID, projectID)
    ensures id in jobs && TenantKey(jobs[id]) == tenantID + "::" + projectID
  {}

  lemma OwnIsAll(jobs: map<string, JobRecord>, tenantID: string, projectID: string)
    ensures var own, all := ScopeJobs(jobs, tenantID, projectID), KeyJobs(jobs, jobs.Keys, tenantID + "::" + projectID);
            own <= all && (own == all <==> OwnLine(jobs, tenantID, projectID))
  {
    var own, all := ScopeJobs(jobs, tenantID, projectID), KeyJobs(jobs, jobs.Keys, tenantID + "::" + projectID);
    if own == all {
      forall x | x in jobs && jobs[x].tenantID + "::" + jobs[x].projectID == tenantID + "::" + projectID
        ensures jobs[x].tenantID == tenantID && jobs[x].projectID == projectID
      {
        assert x in all;
      }
    }
  }

  /** Tokens are estimated as quarters of the trimmed answer's bytes, rounded up. */
  lemma TokensExactly(text: string)
    ensures ByteLength(TrimSpace(text)) <= 4 * EstimateTokens(text) < ByteLength(TrimSpace(text)) + 4
    ensures |TrimSpace(text)| <= ByteLength(TrimSpace(text)) <= 4 * |TrimSpace(text)|
    ensures (forall c <- text :: c < '\U{80}') ==> ByteLength(text) == |text|
  {
    BytesBound(TrimSpace(text));
    BytesBound(text);
    hide TrimSpace;
  }

  lemma {:induction false} BytesBound(s: string)
    ensures |s| <= ByteLength(s) <= 4 * |s|
    ensures (forall c <- s :: c < '\U{80}') ==> ByteLength(s) == |s|
  {
    if s != "" {
      BytesBound(s[1..]);
      assert s[0] in s && forall c <- s[1..] :: c in s;
    }
  }

  /** In every reachable state, an exact snapshot conserves jobs: by status, by tenant, and within each tenant. */
  lemma MetricsConserveJobs(s: JobMachine.System, byStatus: map<Status, int>, byTenant: map<string, TenantMetrics>)
    requires JobMachine.Reachable(s) && Counts(s.mem.jobs, s.mem.jobs.Keys, byStatus, byTenant)
    ensures StatusTotal(byStatus) == |s.mem.jobs|
    ensures Sum(byTenant.Keys, Totals(byTenant)) == |s.mem.jobs|
    ensures forall key :: key in byTenant ==>
              && AllSix(st => CountOf(byTenant[key], st)) == byTenant[key].jobsTotal
              && byTenant[key].retryCount == Sum(s.mem.jobs.Keys, RetriesOf(s.mem.jobs, key))
  {
    hide Sum, TenantKey, TenantCounts, StatusTotal, JobMachine.Reachable, JobInvariants.SystemOk;
    var jobs := s.mem.jobs;
    JobInvariants.ReachableOk(s);
    forall id | id in jobs ensures jobs[id].attempt >= 1 { JobTheorems.AttemptsOk(s, id); }
    StatusTotalExact(jobs, byStatus, byTenant);
    TenantTotalExact(jobs, byStatus, byTenant);
    forall key | key in byTenant
      ensures AllSix(st => CountOf(byTenant[key], st)) == byTenant[key].jobsTotal
      ensures byTenant[key].retryCount == Sum(jobs.Keys, RetriesOf(jobs, key))
    {
      TenantLineExact(jobs, key, byTenant[key]);
    }
  }
}
