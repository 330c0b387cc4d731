/** The generated router: path patterns with holes, the route table, and the client's path formatting. */
module Router {
  import opened Text
  import Jobs

  type Params = map<string, string>

  datatype Route = Route(verb: string, path: string, operation: string)

  /** What a request is dispatched to; `None` is the not-found answer. */
  type Dispatched = Option<(string, Params)>

  /** The route table. */
  function Routes(): seq<Route> {
    [ Route("POST", "/v1/assistant/jobs", "submitBriefJob"),
      Route("GET", "/v1/assistant/jobs/{job_id}", "getJobStatus"),
      Route("GET", "/v1/assistant/jobs/{job_id}/result", "getJobResult"),
      Route("GET", "/v1/assistant/jobs/{job_id}/deliveries", "getJobDeliveries"),
      Route("POST", "/v1/assistant/jobs/{job_id}/cancel", "cancelJob"),
      Route("POST", "/v1/assistant/jobs/{job_id}/replay", "replayJob"),
      Route("POST", "/v1/assistant/query", "queryExpert"),
      Route("GET", "/v1/assistant/experts", "getExpertCapabilities") ]
  }

  // ---- splitting and matching -----------------------------------------------------------

  function SplitPath(path: string): seq<string> {
    var trimmed := Trim(path, IsSlash);
    if trimmed == "" then [] else Split(trimmed, '/')
  }

  predicate IsHole(part: string) {
    HasPrefix(part, "{") && HasSuffix(part, "}")
  }

  /** The name of a hole; `None` for a literal part. */
  function Hole(part: string): Option<string> {
    if IsHole(part) then Some(TrimSuffix(TrimPrefix(part, "{"), "}")) else None
  }

  /** Every literal part of the pattern is repeated, and the lengths agree. */
  predicate Fits(pattern: seq<string>, actual: seq<string>) {
    |pattern| == |actual| && forall i :: 0 <= i < |pattern| && Hole(pattern[i]).None? ==> actual[i] == pattern[i]
  }

  /** The last of the first `n` parts that is a hole called `name`. */
  predicate LastHole(pattern: seq<string>, n: nat, name: string, i: nat)
    requires n <= |pattern|
  {
    i < n && Hole(pattern[i]) == Some(name) && forall j :: i < j < n ==> Hole(pattern[j]) != Some(name)
  }

  ghost predicate BoundTo(pattern: seq<string>, actual: seq<string>, n: nat, name: string, value: string)
    requires n <= |pattern| == |actual|
  {
    exists i: nat :: LastHole(pattern, n, name, i) && value == actual[i]
  }

  /** `params` binds exactly the holes of the first `n` parts, each name to what stands at its last hole. */
  ghost predicate Binds(pattern: seq<string>, actual: seq<string>, n: nat, params: Params)
    requires n <= |pattern| == |actual|
  {
    HolesIn(pattern, n, params) && AllBound(pattern, actual, n, params)
  }

  ghost predicate HolesIn(pattern: seq<string>, n: nat, params: Params)
    requires n <= |pattern|
  {
    forall i :: 0 <= i < n && Hole(pattern[i]).Some? ==> Hole(pattern[i]).value in params
  }

  ghost predicate AllBound(pattern: seq<string>, actual: seq<string>, n: nat, params: Params)
    requires n <= |pattern| == |actual|
  {
    forall name <- params :: BoundTo(pattern, actual, n, name, params[name])
  }

  /** There is one such binding. */
  lemma BindsOnce(pattern: seq<string>, actual: seq<string>, n: nat, p: Params, q: Params)
    requires n <= |pattern| == |actual| && Binds(pattern, actual, n, p) && Binds(pattern, actual, n, q)
    ensures p == q
  {
    hide Hole;
    assert forall name :: name in p <==> name in q;
    forall name <- p ensures p[name] == q[name] {
      var i: nat :| LastHole(pattern, n, name, i) && p[name] == actual[i];
      var j: nat :| LastHole(pattern, n, name, j) && q[name] == actual[j];
      assert i == j;
    }
  }

  function MatchTo(pattern: seq<string>, actual: seq<string>, n: nat): Option<Params>
    requires n <= |pattern| == |actual|
  {
    if n == 0 then Some(map[])
    else match MatchTo(pattern, actual, n - 1)
      case None => None
      case Some(params) =>
        if Hole(pattern[n - 1]).Some? then Some(params[Hole(pattern[n - 1]).value := actual[n - 1]])
        else if pattern[n - 1] == actual[n - 1] then Some(params)
        else None
  }

  function MatchParts(pattern: seq<string>, actual: seq<string>): Option<Params> {
    if |pattern| == |actual| then MatchTo(pattern, actual, |pattern|) else None
  }

  function MatchPath(pattern: string, actual: string): Option<Params> {
    MatchParts(SplitPath(pattern), SplitPath(actual))
  }

  lemma {:induction false} MatchToExact(pattern: seq<string>, actual: seq<string>, n: nat)
    requires n <= |pattern| == |actual|
    ensures MatchTo(pattern, actual, n).Some? <==> Fits(pattern[..n], actual[..n])
    ensures MatchTo(pattern, actual, n).Some? ==> Binds(pattern, actual, n, MatchTo(pattern, actual, n).value)
  {
    if n > 0 {
      MatchToExact(pattern, actual, n - 1);
      FitsNext(pattern, actual, n);
      if MatchTo(pattern, actual, n).Some? { BindsNext(pattern, actual, n); }
      hide Hole, Fits, Binds;
    }
  }

  lemma FitsNext(pattern: seq<string>, actual: seq<string>, n: nat)
    requires 0 < n <= |pattern| == |actual|
    ensures Fits(pattern[..n], actual[..n]) <==>
            Fits(pattern[..n - 1], actual[..n - 1]) && (Hole(pattern[n - 1]).Some? || actual[n - 1] == pattern[n - 1])
  {
    hide Hole;
    assert forall i :: 0 <= i < n - 1 ==> pattern[..n][i] == pattern[..n - 1][i] && actual[..n][i] == actual[..n - 1][i];
    assert pattern[..n][n - 1] == pattern[n - 1] && actual[..n][n - 1] == actual[n - 1];
  }

  lemma BoundNext(pattern: seq<string>, actual: seq<string>, n: nat, name: string, value: string)
    requires 0 < n <= |pattern| == |actual|
    requires if Hole(pattern[n - 1]) == Some(name) then value == actual[n - 1] else BoundTo(pattern, actual, n - 1, name, value)
    ensures BoundTo(pattern, actual, n, name, value)
  {
    hide Hole;
    if Hole(pattern[n - 1]) == Some(name) {
      assert LastHole(pattern, n, name, n - 1);
    } else {
      var i: nat :| LastHole(pattern, n - 1, name, i) && value == actual[i];
      assert LastHole(pattern, n, name, i);
    }
  }

  lemma BindsNext(pattern: seq<string>, actual: seq<string>, n: nat)
    requires 0 < n <= |pattern| == |actual| && MatchTo(pattern, actual, n).Some?
    requires Binds(pattern, actual, n - 1, MatchTo(pattern, actual, n - 1).value)
    ensures Binds(pattern, actual, n, MatchTo(pattern, actual, n).value)
  {
    hide Hole, HolesIn, AllBound;
    AllBoundNext(pattern, actual, n);
    HolesInNext(pattern, actual, n);
  }

  lemma HolesInNext(pattern: seq<string>, actual: seq<string>, n: nat)
    requires 0 < n <= |pattern| == |actual| && MatchTo(pattern, actual, n).Some?
    requires HolesIn(pattern, n - 1, MatchTo(pattern, actual, n - 1).value)
    ensures HolesIn(pattern, n, MatchTo(pattern, actual, n).value)
  {
    MatchNext(pattern, actual, n - 1);
    hide Hole, MatchTo;
  }

  lemma AllBoundNext(pattern: seq<string>, actual: seq<string>, n: nat)
    requires 0 < n <= |pattern| == |actual| && MatchTo(pattern, actual, n).Some?
    requires AllBound(pattern, actual, n - 1, MatchTo(pattern, actual, n - 1).value)
    ensures AllBound(pattern, actual, n, MatchTo(pattern, actual, n).value)
  {
    MatchNext(pattern, actual, n - 1);
    var after := MatchTo(pattern, actual, n).value;
    hide Hole, BoundTo, MatchTo;
    forall name <- after ensures BoundTo(pattern, actual, n, name, after[name]) {
      BoundNext(pattern, actual, n, name, after[name]);
    }
  }

  /** A path matches exactly when it repeats every literal part, and the holes get what stands in their place. */
  lemma MatchExact(pattern: string, actual: string)
    ensures MatchPath(pattern, actual).Some? <==> Fits(SplitPath(pattern), SplitPath(actual))
    ensures MatchPath(pattern, actual).Some? ==>
              Binds(SplitPath(pattern), SplitPath(actual), |SplitPath(pattern)|, MatchPath(pattern, actual).value)
  {
    var p, a := SplitPath(pattern), SplitPath(actual);
    if |p| == |a| {
      MatchToExact(p, a, |p|);
      assert p[..|p|] == p && a[..|p|] == a;
    }
  }

  method MatchPathLoop(pattern: string, actual: string) returns (r: Option<Params>)
    ensures r == MatchPath(pattern, actual)
    ensures r.Some? <==> Fits(SplitPath(pattern), SplitPath(actual))
  {
    MatchExact(pattern, actual);
    var patternParts := SplitPath(pattern);
    var actualParts := SplitPath(actual);
    if |patternParts| != |actualParts| { return None; }
    hide SplitPath, Hole, Fits, MatchTo;
    MatchNone(patternParts, actualParts);
    var params: Params := map[];
    for i := 0 to |patternParts|
      invariant MatchTo(patternParts, actualParts, i) == Some(params)
    {
      MatchNext(patternParts, actualParts, i);
      var p, a := patternParts[i], actualParts[i];
      var hole := Hole(p);
      if hole.Some? {
        params := params[hole.value := a];
        continue;
      }
      if p != a {
        MatchStops(patternParts, actualParts, i + 1, |patternParts|);
        return None;
      }
    }
    r := Some(params);
  }

  lemma MatchNone(pattern: seq<string>, actual: seq<string>)
    requires |pattern| == |actual|
    ensures MatchTo(pattern, actual, 0) == Some(map[])
  {}

  lemma MatchNext(pattern: seq<string>, actual: seq<string>, i: nat)
    requires i < |pattern| == |actual| && MatchTo(pattern, actual, i).Some?
    ensures var params, hole := MatchTo(pattern, actual, i).value, Hole(pattern[i]);
            MatchTo(pattern, actual, i + 1) ==
            if hole.Some? then Some(params[hole.value := actual[i]])
            else if pattern[i] == actual[i] then Some(params) else None
  {
    hide Hole;
  }

  lemma {:induction false} MatchStops(pattern: seq<string>, actual: seq<string>, m: nat, n: nat)
    requires m <= n <= |pattern| == |actual| && MatchTo(pattern, actual, m).None?
    ensures MatchTo(pattern, actual, n).None?
    decreases n
  {
    hide Hole;
    if m < n { MatchStops(pattern, actual, m, n - 1); }
  }

  // ---- filling a pattern -------------------------------------------------------------------

  ghost predicate Covers(pattern: seq<string>, values: Params) {
    forall i :: 0 <= i < |pattern| && Hole(pattern[i]).Some? ==> Hole(pattern[i]).value in values
  }

  ghost predicate DistinctHoles(pattern: seq<string>) {
    forall i, j :: 0 <= i < j < |pattern| && Hole(pattern[i]).Some? ==> Hole(pattern[j]) != Hole(pattern[i])
  }

  /** The hole values, and nothing more. */
  ghost function Named(pattern: seq<string>, values: Params): Params {
    map name | name in values && exists i :: 0 <= i < |pattern| && Hole(pattern[i]) == Some(name) :: values[name]
  }

  ghost function Fill(pattern: seq<string>, values: Params): (r: seq<string>)
    requires Covers(pattern, values)
    ensures |r| == |pattern|
    ensures forall i :: 0 <= i < |pattern| ==>
              r[i] == if Hole(pattern[i]).Some? then values[Hole(pattern[i]).value] else pattern[i]
  {
    seq(|pattern|, i requires 0 <= i < |pattern| => if Hole(pattern[i]).Some? then values[Hole(pattern[i]).value] else pattern[i])
  }

  /** The path a client formats. */
  ghost function FillPath(pattern: string, values: Params): string
    requires Covers(SplitPath(pattern), values)
  {
    "/" + Join(Fill(SplitPath(pattern), values), "/")
  }

  lemma {:induction false} JoinEnds(parts: seq<string>, sep: char)
    requires parts != []
    ensures var s := Join(parts, [sep]);
            && (s == "" <==> parts == [""])
            && (s != "" ==> s[0] == if parts[0] == "" then sep else parts[0][0])
            && (s != "" ==> var last := parts[|parts| - 1]; s[|s| - 1] == if last == "" then sep else last[|last| - 1])
  {
    if |parts| > 1 {
      JoinEnds(parts[1..], sep);
      assert Join(parts, [sep]) == parts[0] + ([sep] + Join(parts[1..], [sep]));
    }
  }

  /** Parts with something at both ends and no separator come back from the joined path; others never come from one. */
  lemma SplitPathExact(path: string)
    ensures var parts := SplitPath(path);
            && (forall i :: 0 <= i < |parts| ==> Free(parts[i], '/'))
            && (parts != [] ==> parts[0] != "" && parts[|parts| - 1] != "")
  {
    var trimmed := Trim(path, IsSlash);
    TrimBare(path, IsSlash);
    if trimmed != "" {
      var parts := Split(trimmed, '/');
      JoinSplit(trimmed, '/');
      JoinEnds(parts, '/');
    }
  }

  lemma SplitPathOfJoin(parts: seq<string>)
    requires forall i :: 0 <= i < |parts| ==> Free(parts[i], '/')
    requires parts != [] ==> parts[0] != "" && parts[|parts| - 1] != ""
    ensures SplitPath("/" + Join(parts, "/")) == parts
  {
    var joined := Join(parts, "/");
    if parts == [] {
      assert "/" + joined == "/" && TrimLeft("/", IsSlash) == "";
    } else {
      JoinEnds(parts, '/');
      assert parts[0][0] in parts[0];
      var last := parts[|parts| - 1];
      assert last[|last| - 1] in last;
      TrimPadded("/", joined, "", IsSlash);
      assert "/" + joined + "" == "/" + joined;
      SplitJoin(parts, '/');
    }
  }

  /** What a client may put in the holes: no slash, and no empty value at either end of the pattern. */
  ghost predicate Fillable(pattern: seq<string>, values: Params)
    requires Covers(pattern, values)
  {
    forall i :: 0 <= i < |pattern| && Hole(pattern[i]).Some? ==>
      && Free(values[Hole(pattern[i]).value], '/')
      && (i == 0 || i == |pattern| - 1 ==> values[Hole(pattern[i]).value] != "")
  }

  lemma NamedBinds(pattern: seq<string>, values: Params)
    requires Covers(pattern, values) && DistinctHoles(pattern)
    ensures Binds(pattern, Fill(pattern, values), |pattern|, Named(pattern, values))
  {
    var actual, n, named := Fill(pattern, values), |pattern|, Named(pattern, values);
    hide Hole;
    forall name <- named ensures BoundTo(pattern, actual, n, name, named[name]) {
      var i: nat :| i < n && Hole(pattern[i]) == Some(name);
      hide Named;
      assert actual[i] == values[name];
      assert LastHole(pattern, n, name, i);
    }
    hide BoundTo;
  }

  lemma FillBinds(pattern: seq<string>, values: Params)
    requires Covers(pattern, values) && DistinctHoles(pattern)
    ensures MatchParts(pattern, Fill(pattern, values)) == Some(Named(pattern, values))
  {
    var actual, n := Fill(pattern, values), |pattern|;
    MatchToExact(pattern, actual, n);
    assert pattern[..n] == pattern && actual[..n] == actual;
    assert Fits(pattern, actual) by { hide Hole, Covers; }
    NamedBinds(pattern, values);
    hide Hole, MatchTo, Fill, Named, Covers, Binds, Fits, DistinctHoles;
    BindsOnce(pattern, actual, n, MatchTo(pattern, actual, n).value, Named(pattern, values));
  }

  /** With distinct holes every bound value is what stands in the hole's place. */
  lemma BoundInPlace(pattern: seq<string>, actual: seq<string>, params: Params)
    requires |pattern| == |actual| && DistinctHoles(pattern) && Binds(pattern, actual, |pattern|, params)
    requires Fits(pattern, actual)
    ensures Covers(pattern, params) && actual == Fill(pattern, params)
  {
    hide Hole;
    forall i | 0 <= i < |pattern| && Hole(pattern[i]).Some? ensures params[Hole(pattern[i]).value] == actual[i] {
      var name := Hole(pattern[i]).value;
      assert BoundTo(pattern, actual, |pattern|, name, params[name]);
      var j: nat :| LastHole(pattern, |pattern|, name, j) && params[name] == actual[j];
      assert i == j;
    }
  }

  /** Filling reads only the hole values. */
  lemma FillNamed(pattern: seq<string>, values: Params)
    requires Covers(pattern, values)
    ensures Covers(pattern, Named(pattern, values)) && Fill(pattern, Named(pattern, values)) == Fill(pattern, values)
  {
    hide Hole;
  }

  /** Fillable values leave the filled parts with something at both ends and no slash, and only they do. */
  lemma FillableExact(pattern: seq<string>, values: Params)
    requires Covers(pattern, values)
    requires forall i :: 0 <= i < |pattern| ==> Free(pattern[i], '/')
    requires pattern != [] ==> pattern[0] != "" && pattern[|pattern| - 1] != ""
    ensures var filled := Fill(pattern, values);
            Fillable(pattern, values) <==>
            && (forall i :: 0 <= i < |filled| ==> Free(filled[i], '/'))
            && (filled != [] ==> filled[0] != "" && filled[|filled| - 1] != "")
  {
    hide Hole, Free;
  }

  /** Matching recovers exactly the values filled in, for any pattern with distinct holes and just when they are fillable. */
  lemma FillMatchExactly(pattern: string, values: Params)
    requires Covers(SplitPath(pattern), values) && DistinctHoles(SplitPath(pattern))
    ensures MatchPath(pattern, FillPath(pattern, values)) == Some(Named(SplitPath(pattern), values))
            <==> Fillable(SplitPath(pattern), values)
  {
    hide *;
    if Fillable(SplitPath(pattern), values) { FillableMatches(pattern, values); }
    if MatchPath(pattern, FillPath(pattern, values)) == Some(Named(SplitPath(pattern), values)) { MatchingFillable(pattern, values); }
  }

  lemma FillableMatches(pattern: string, values: Params)
    requires Covers(SplitPath(pattern), values) && DistinctHoles(SplitPath(pattern)) && Fillable(SplitPath(pattern), values)
    ensures MatchPath(pattern, FillPath(pattern, values)) == Some(Named(SplitPath(pattern), values))
  {
    hide SplitPath, Hole, Fillable, Fits, Binds, Free, Fill, Covers, Named, DistinctHoles, MatchParts, Join;
    var p := SplitPath(pattern);
    SplitPathExact(pattern);
    FillableExact(p, values);
    SplitPathOfJoin(Fill(p, values));
    FillBinds(p, values);
  }

  lemma MatchingFillable(pattern: string, values: Params)
    requires Covers(SplitPath(pattern), values) && DistinctHoles(SplitPath(pattern))
    requires MatchPath(pattern, FillPath(pattern, values)) == Some(Named(SplitPath(pattern), values))
    ensures Fillable(SplitPath(pattern), values)
  {
    hide SplitPath, Hole, Fillable, Fits, Binds, Free, Fill, Covers, Named, DistinctHoles, MatchParts, FillPath, MatchPath;
    var p, path := SplitPath(pattern), FillPath(pattern, values);
    SplitPathExact(pattern);
    SplitPathExact(path);
    FillableExact(p, values);
    MatchExact(pattern, path);
    LengthsAgree(p, SplitPath(path));
    BoundInPlace(p, SplitPath(path), Named(p, values));
    FillNamed(p, values);
  }

  lemma LengthsAgree(pattern: seq<string>, actual: seq<string>)
    requires Fits(pattern, actual)
    ensures |pattern| == |actual|
  {}

  /** With distinct holes, a path matches exactly when it is, up to outer slashes, a filled-in copy of the pattern. */
  lemma MatchIsFill(pattern: string, actual: string)
    requires DistinctHoles(SplitPath(pattern))
    ensures MatchPath(pattern, actual).Some? <==>
            exists values: Params :: Covers(SplitPath(pattern), values) && SplitPath(actual) == Fill(SplitPath(pattern), values)
  {
    MatchExact(pattern, actual);
    hide SplitPath, Hole;
    if MatchPath(pattern, actual).Some? {
      BoundInPlace(SplitPath(pattern), SplitPath(actual), MatchPath(pattern, actual).value);
    }
  }

  // ---- dispatching ---------------------------------------------------------------------------

  predicate Matches(route: Route, verb: string, path: string) {
    route.verb == verb && MatchPath(route.path, path).Some?
  }

  function Target(route: Route, path: string): (string, Params)
    requires MatchPath(route.path, path).Some?
  {
    (route.operation, MatchPath(route.path, path).value)
  }

  function Dispatch(table: seq<Route>, verb: string, path: string): Dispatched {
    if table == [] then None
    else if Matches(table[0], verb, path) then Some(Target(table[0], path))
    else Dispatch(table[1..], verb, path)
  }

  /** The calls of the interface: what a client asks for, and what the server's implementation is asked. */
  datatype Call =
    | SubmitBriefJob
    | GetJobStatus(jobID: string)
    | GetJobResult(jobID: string)
    | GetJobDeliveries(jobID: string)
    | CancelJob(jobID: string)
    | ReplayJob(jobID: string)
    | QueryExpert
    | GetExpertCapabilities

  /** What the handler calls for an operation; `None` is the not-found answer. */
  function Invoked(operation: string, params: Params): Option<Call> {
    var jobID := if "job_id" in params then params["job_id"] else "";
    if operation == "submitBriefJob" then Some(SubmitBriefJob)
    else if operation == "getJobStatus" then Some(GetJobStatus(jobID))
    else if operation == "getJobResult" then Some(GetJobResult(jobID))
    else if operation == "getJobDeliveries" then Some(GetJobDeliveries(jobID))
    else if operation == "cancelJob" then Some(CancelJob(jobID))
    else if operation == "replayJob" then Some(ReplayJob(jobID))
    else if operation == "queryExpert" then Some(QueryExpert)
    else if operation == "getExpertCapabilities" then Some(GetExpertCapabilities)
    else None
  }

  function Served(table: seq<Route>, verb: string, path: string): Option<Call> {
    match Dispatch(table, verb, path)
    case None => None
    case Some(target) => Invoked(target.0, target.1)
  }

  method ServeHTTP(verb: string, path: string) returns (r: Option<Call>)
    ensures r == Served(Routes(), verb, path)
  {
    var routes := Routes();
    hide Routes, MatchPath, Invoked;
    for i := 0 to |routes|
      invariant Dispatch(routes[i..], verb, path) == Dispatch(routes, verb, path)
    {
      var route := routes[i];
      assert routes[i..][1..] == routes[i + 1..];
      if verb != route.verb { continue; }
      var params := MatchPathLoop(route.path, path);
      if params.None? { continue; }
      return Invoked(route.operation, params.value);
    }
    r := None;
  }

  /** At most one route of the table matches any request. */
  ghost predicate Unambiguous(table: seq<Route>) {
    forall r, s, verb, path | r in table && s in table && Matches(r, verb, path) && Matches(s, verb, path) :: r == s
  }

  lemma {:induction false} DispatchFinds(table: seq<Route>, verb: string, path: string)
    ensures match Dispatch(table, verb, path)
            case None => forall r <- table :: !Matches(r, verb, path)
            case Some(t) => exists r <- table :: Matches(r, verb, path) && t == Target(r, path)
  {
    hide MatchPath;
    if table != [] {
      DispatchFinds(table[1..], verb, path);
      assert table == [table[0]] + table[1..];
      assert table[0] in table;
    }
  }

  lemma DispatchTo(table: seq<Route>, route: Route, path: string)
    requires Unambiguous(table) && route in table && MatchPath(route.path, path).Some?
    ensures Dispatch(table, route.verb, path) == Some(Target(route, path))
  {
    DispatchFinds(table, route.verb, path);
    assert Matches(route, route.verb, path);
    hide MatchPath, Dispatch;
  }

  /** Without ambiguity only the set of routes counts, not their order. */
  lemma OrderIrrelevant(table: seq<Route>, other: seq<Route>, verb: string, path: string)
    requires Unambiguous(table) && forall r :: r in table <==> r in other
    ensures Dispatch(other, verb, path) == Dispatch(table, verb, path)
  {
    DispatchFinds(table, verb, path);
    DispatchFinds(other, verb, path);
    hide MatchPath;
  }

  /** Two patterns no path can fit both of: other lengths, or different literals at one place. */
  predicate Apart(p: seq<string>, q: seq<string>) {
    |p| != |q| || exists i :: 0 <= i < |p| && Hole(p[i]).None? && Hole(q[i]).None? && p[i] != q[i]
  }

  lemma ApartNeverBoth(p: string, q: string, path: string)
    requires Apart(SplitPath(p), SplitPath(q))
    ensures MatchPath(p, path).None? || MatchPath(q, path).None?
  {
    MatchExact(p, path);
    MatchExact(q, path);
    hide SplitPath, Hole, MatchPath;
  }

  // ---- the table -------------------------------------------------------------------------------

  function TableParts(i: nat): seq<string>
    requires i < 8
  {
    var jobs := ["v1", "assistant", "jobs"];
    match i
    case 0 => jobs
    case 1 => jobs + ["{job_id}"]
    case 2 => jobs + ["{job_id}", "result"]
    case 3 => jobs + ["{job_id}", "deliveries"]
    case 4 => jobs + ["{job_id}", "cancel"]
    case 5 => jobs + ["{job_id}", "replay"]
    case 6 => ["v1", "assistant", "query"]
    case _ => ["v1", "assistant", "experts"]
  }

  lemma TablePartsPlain(i: nat)
    requires i < 8
    ensures var p := TableParts(i);
            |p| >= 3 && p[0] != "" && p[|p| - 1] != "" && forall k :: 0 <= k < |p| ==> Free(p[k], '/')
  {}

  lemma AssistantPath(rest: seq<string>)
    requires rest != []
    ensures Join(["v1", "assistant"] + rest, "/") == "v1/assistant/" + Join(rest, "/")
  {
    assert ["v1", "assistant"] + rest == ["v1"] + (["assistant"] + rest);
    JoinCons("v1", ["assistant"] + rest, "/");
    JoinCons("assistant", rest, "/");
  }

  lemma JobPath(last: string)
    ensures Join(["v1", "assistant", "jobs", "{job_id}", last], "/") == "v1/assistant/" + ("jobs/{job_id}" + "/" + last)
  {
    var rest := ["jobs", "{job_id}", last];
    assert ["v1", "assistant", "jobs", "{job_id}", last] == ["v1", "assistant"] + rest;
    AssistantPath(rest);
    JoinCons("jobs", ["{job_id}", last], "/");
    assert rest == ["jobs"] + ["{job_id}", last];
    JoinCons("{job_id}", [last], "/");
    assert ["{job_id}", last] == ["{job_id}"] + [last];
    assert "jobs" + "/" + "{job_id}" == "jobs/{job_id}";
  }

  lemma ResultText()
    ensures "/" + ("v1/assistant/" + ("jobs/{job_id}" + "/" + "result")) == "/v1/assistant/jobs/{job_id}/result"
  {}

  lemma DeliveriesText()
    ensures "/" + ("v1/assistant/" + ("jobs/{job_id}" + "/" + "deliveries")) == "/v1/assistant/jobs/{job_id}/deliveries"
  {}

  lemma CancelText()
    ensures "/" + ("v1/assistant/" + ("jobs/{job_id}" + "/" + "cancel")) == "/v1/assistant/jobs/{job_id}/cancel"
  {}

  lemma ReplayText()
    ensures "/" + ("v1/assistant/" + ("jobs/{job_id}" + "/" + "replay")) == "/v1/assistant/jobs/{job_id}/replay"
  {}

  lemma ActionJoin(i: nat)
    requires 2 <= i <= 5
    ensures Routes()[i].path == "/" + Join(TableParts(i), "/")
  {
    var p := TableParts(i);
    JobPath(p[4]);
    ResultText();
    DeliveriesText();
    CancelText();
    ReplayText();
    assert p == ["v1", "assistant", "jobs", "{job_id}", p[4]];
    hide Join;
  }

  lemma FlatTexts()
    ensures "/" + ("v1/assistant/" + "jobs") == "/v1/assistant/jobs"
    ensures "/" + ("v1/assistant/" + "query") == "/v1/assistant/query"
    ensures "/" + ("v1/assistant/" + "experts") == "/v1/assistant/experts"
    ensures "/" + ("v1/assistant/" + "jobs/{job_id}") == "/v1/assistant/jobs/{job_id}"
  {}

  lemma FlatJoin(i: nat)
    requires i in {0, 6, 7}
    ensures Routes()[i].path == "/" + Join(TableParts(i), "/")
  {
    var p := TableParts(i);
    FlatTexts();
    AssistantPath(p[2..]);
    assert p == ["v1", "assistant"] + p[2..];
    assert p[2..] == [p[2]];
  }

  lemma StatusJoin()
    ensures Routes()[1].path == "/" + Join(TableParts(1), "/")
  {
    var p := TableParts(1);
    FlatTexts();
    AssistantPath(["jobs", "{job_id}"]);
    assert p == ["v1", "assistant"] + ["jobs", "{job_id}"];
    assert ["jobs", "{job_id}"] == ["jobs"] + ["{job_id}"] && "jobs" + "/" + "{job_id}" == "jobs/{job_id}";
    JoinCons("jobs", ["{job_id}"], "/");
  }

  lemma TableJoin(i: nat)
    requires i < 8
    ensures Routes()[i].path == "/" + Join(TableParts(i), "/")
  {
    hide *;
    if 2 <= i <= 5 { ActionJoin(i); } else if i == 1 { StatusJoin(); } else { FlatJoin(i); }
  }

  lemma TableSplit(i: nat)
    requires i < 8
    ensures SplitPath(Routes()[i].path) == TableParts(i)
  {
    TablePartsPlain(i);
    TableJoin(i);
    SplitPathOfJoin(TableParts(i));
  }

  lemma LiteralPart(part: string)
    requires part != "" && part[0] != '{'
    ensures Hole(part) == None
  {}

  lemma HolePart(name: string)
    ensures Hole("{" + name + "}") == Some(name)
  {
    var part := "{" + name + "}";
    assert part[..1] == "{" && part[|part| - 1..] == "}" && part[1..] == name + "}";
    assert (name + "}")[|name|..] == "}" && (name + "}")[..|name|] == name;
  }

  lemma TableHoles(i: nat)
    requires i < 8
    ensures DistinctHoles(TableParts(i))
    ensures forall k :: 0 <= k < |TableParts(i)| ==>
              Hole(TableParts(i)[k]) == if 1 <= i <= 5 && k == 3 then Some("job_id") else None
  {
    var p := TableParts(i);
    hide Hole;
    forall k | 0 <= k < |p| ensures Hole(p[k]) == if 1 <= i <= 5 && k == 3 then Some("job_id") else None {
      if 1 <= i <= 5 && k == 3 {
        HolePart("job_id");
        assert p[k] == "{" + "job_id" + "}";
      } else {
        LiteralPart(p[k]);
      }
    }
  }

  lemma TableApart(i: nat, j: nat)
    requires i < j < 8 && Routes()[i].verb == Routes()[j].verb
    ensures Apart(TableParts(i), TableParts(j))
  {
    var p, q := TableParts(i), TableParts(j);
    TableHoles(i);
    TableHoles(j);
    hide Hole;
    assert |"POST"| != |"GET"|;
    assert "cancel"[0] != "replay"[0] && |"jobs"| != |"query"| && |"result"| != |"deliveries"|;
    if |p| == |q| { assert Hole(p[|p| - 1]).None? && Hole(q[|p| - 1]).None? && p[|p| - 1] != q[|p| - 1]; }
  }

  /** Every request matches at most one route of the table. */
  lemma TableUnambiguous()
    ensures Unambiguous(Routes())
  {
    var table := Routes();
    forall r, s, verb, path | r in table && s in table && Matches(r, verb, path) && Matches(s, verb, path) ensures r == s {
      var i: nat :| i < 8 && table[i] == r;
      var j: nat :| j < 8 && table[j] == s;
      if i < j { NeverBoth(i, j, path); } else if j < i { NeverBoth(j, i, path); }
    }
  }

  lemma NeverBoth(i: nat, j: nat, path: string)
    requires i < j < 8 && Routes()[i].verb == Routes()[j].verb
    ensures MatchPath(Routes()[i].path, path).None? || MatchPath(Routes()[j].path, path).None?
  {
    TableSplit(i);
    TableSplit(j);
    TableApart(i, j);
    ApartNeverBoth(Routes()[i].path, Routes()[j].path, path);
  }

  /** So the table may be written in any order: any list of the same routes dispatches every request alike. */
  lemma TableOrderIrrelevant(other: seq<Route>, verb: string, path: string)
    requires forall r :: r in Routes() <==> r in other
    ensures Dispatch(other, verb, path) == Dispatch(Routes(), verb, path)
  {
    TableUnambiguous();
    OrderIrrelevant(Routes(), other, verb, path);
  }

  lemma TableNamed(i: nat, values: Params)
    requires i < 8 && values.Keys == {"job_id"}
    ensures Named(TableParts(i), values) == if 1 <= i <= 5 then values else map[]
  {
    var p := TableParts(i);
    TableHoles(i);
    hide Hole;
    if 1 <= i <= 5 { assert Hole(p[3]) == Some("job_id"); }
  }

  /** An id a route's path can carry: no slash, and something where it ends the path. */
  predicate Deliverable(i: nat, jobID: string) {
    1 <= i <= 5 ==> Free(jobID, '/') && (i == 1 ==> jobID != "")
  }

  function IdOnly(jobID: string): Params {
    map["job_id" := jobID]
  }

  /** What the request of a route should be dispatched to. */
  function Wanted(i: nat, jobID: string): (string, Params)
    requires i < 8
  {
    (Routes()[i].operation, if 1 <= i <= 5 then IdOnly(jobID) else map[])
  }

  lemma TableFillable(i: nat, jobID: string)
    requires i < 8
    ensures var p, values := TableParts(i), IdOnly(jobID);
            Covers(p, values) && DistinctHoles(p) && (Fillable(p, values) <==> Deliverable(i, jobID))
  {
    TableHoles(i);
    hide Hole, Free;
    if 1 <= i <= 5 { assert Hole(TableParts(i)[3]) == Some("job_id"); }
  }

  lemma TableMatches(i: nat, jobID: string)
    requires i < 8
    ensures var pattern := Routes()[i].path;
            && Covers(SplitPath(pattern), IdOnly(jobID))
            && (MatchPath(pattern, FillPath(pattern, IdOnly(jobID))) == Some(Wanted(i, jobID).1) <==> Deliverable(i, jobID))
  {
    TableWanted(i, jobID);
    hide *;
    TableSplit(i);
    TableFillable(i, jobID);
    FillMatchExactly(Routes()[i].path, IdOnly(jobID));
  }

  lemma TableWanted(i: nat, jobID: string)
    requires i < 8
    ensures Named(TableParts(i), IdOnly(jobID)) == Wanted(i, jobID).1
  {
    TableNamed(i, IdOnly(jobID));
    hide Named, TableParts;
  }

  lemma OperationsDiffer(i: nat, j: nat)
    requires i < 8 && j < 8 && Routes()[i].operation == Routes()[j].operation
    ensures i == j
  {
    assert "getJobStatus"[6] == 'S' && "getJobResult"[6] == 'R' && "cancelJob"[0] == 'c' && "replayJob"[0] == 'r';
  }

  lemma OperationRoute(r: Route, i: nat)
    requires r in Routes() && i < 8 && r.operation == Routes()[i].operation
    ensures r == Routes()[i]
  {
    var j: nat :| j < 8 && Routes()[j] == r;
    OperationsDiffer(i, j);
  }

  /** The filled-in path of a route is dispatched to its operation with the id exactly when the path can carry the id. */
  lemma RouteReachesExactly(i: nat, jobID: string)
    requires i < 8
    ensures var route := Routes()[i];
            && Covers(SplitPath(route.path), IdOnly(jobID))
            && (Dispatch(Routes(), route.verb, FillPath(route.path, IdOnly(jobID))) == Some(Wanted(i, jobID))
                <==> Deliverable(i, jobID))
  {
    var route := Routes()[i];
    TableMatches(i, jobID);
    TableUnambiguous();
    var path := FillPath(route.path, IdOnly(jobID));
    assert Wanted(i, jobID).0 == route.operation;
    hide MatchPath, Dispatch, FillPath, SplitPath, Covers, Deliverable, Wanted, Unambiguous, IdOnly;
    DispatchFinds(Routes(), route.verb, path);
    if Deliverable(i, jobID) {
      RouteListed(i);
      hide Routes;
      DispatchTo(Routes(), route, path);
    }
    if Dispatch(Routes(), route.verb, path) == Some(Wanted(i, jobID)) {
      var r :| r in Routes() && Matches(r, route.verb, path) && Target(r, path) == Wanted(i, jobID);
      OperationRoute(r, i);
      hide Routes;
      assert MatchPath(route.path, path) == Some(Wanted(i, jobID).1);
    }
  }

  lemma RouteListed(i: nat)
    requires i < 8
    ensures Routes()[i] in Routes()
  {}

  // ---- the client ------------------------------------------------------------------------------

  /** The method of a client call. */
  function VerbOf(call: Call): string {
    match call
    case SubmitBriefJob => "POST"
    case GetJobStatus(_) => "GET"
    case GetJobResult(_) => "GET"
    case GetJobDeliveries(_) => "GET"
    case CancelJob(_) => "POST"
    case ReplayJob(_) => "POST"
    case QueryExpert => "POST"
    case GetExpertCapabilities => "GET"
  }

  /** The path it formats. */
  function PathOf(call: Call): string {
    match call
    case SubmitBriefJob => "/v1/assistant/jobs"
    case GetJobStatus(jobID) => "/v1/assistant/jobs/" + jobID
    case GetJobResult(jobID) => "/v1/assistant/jobs/" + jobID + "/result"
    case GetJobDeliveries(jobID) => "/v1/assistant/jobs/" + jobID + "/deliveries"
    case CancelJob(jobID) => "/v1/assistant/jobs/" + jobID + "/cancel"
    case ReplayJob(jobID) => "/v1/assistant/jobs/" + jobID + "/replay"
    case QueryExpert => "/v1/assistant/query"
    case GetExpertCapabilities => "/v1/assistant/experts"
  }

  predicate HasID(call: Call) {
    call.GetJobStatus? || call.GetJobResult? || call.GetJobDeliveries? || call.CancelJob? || call.ReplayJob?
  }

  /** An id the path can carry: no slash, and something where it ends the path. */
  predicate Arrives(call: Call) {
    HasID(call) ==> Free(call.jobID, '/') && (call.GetJobStatus? ==> call.jobID != "")
  }

  /** Where the call stands in the table. */
  function RouteOf(call: Call): nat {
    match call
    case SubmitBriefJob => 0
    case GetJobStatus(_) => 1
    case GetJobResult(_) => 2
    case GetJobDeliveries(_) => 3
    case CancelJob(_) => 4
    case ReplayJob(_) => 5
    case QueryExpert => 6
    case GetExpertCapabilities => 7
  }

  function IdOf(call: Call): string {
    if HasID(call) then call.jobID else ""
  }

  lemma IdPath(jobID: string, last: string)
    ensures Join(["v1", "assistant", "jobs", jobID], "/") == "v1/assistant/" + ("jobs/" + jobID)
    ensures Join(["v1", "assistant", "jobs", jobID, last], "/") == "v1/assistant/" + ("jobs/" + jobID + "/" + last)
  {
    assert ["v1", "assistant", "jobs", jobID] == ["v1", "assistant"] + ["jobs", jobID];
    assert ["v1", "assistant", "jobs", jobID, last] == ["v1", "assistant"] + ["jobs", jobID, last];
    AssistantPath(["jobs", jobID]);
    AssistantPath(["jobs", jobID, last]);
    JoinCons("jobs", [jobID], "/");
    JoinCons("jobs", [jobID, last], "/");
    JoinCons(jobID, [last], "/");
    assert ["jobs"] + [jobID] == ["jobs", jobID] && ["jobs"] + [jobID, last] == ["jobs", jobID, last];
    assert [jobID] + [last] == [jobID, last];
    assert "jobs" + "/" == "jobs/";
    assert "jobs" + "/" + (jobID + "/" + last) == "jobs/" + jobID + "/" + last;
  }

  lemma PathText(jobID: string, rest: string)
    ensures "/" + ("v1/assistant/" + ("jobs/" + jobID + rest)) == "/v1/assistant/jobs/" + jobID + rest
  {
    assert "/" + ("v1/assistant/" + "jobs/") == "/v1/assistant/jobs/";
    assert "/" + ("v1/assistant/" + ("jobs/" + jobID + rest)) == "/" + ("v1/assistant/" + "jobs/") + jobID + rest;
  }

  /** The parts a path of the call has. */
  function PartsOf(call: Call): seq<string> {
    match call
    case SubmitBriefJob => ["v1", "assistant", "jobs"]
    case GetJobStatus(jobID) => ["v1", "assistant", "jobs", jobID]
    case GetJobResult(jobID) => ["v1", "assistant", "jobs", jobID, "result"]
    case GetJobDeliveries(jobID) => ["v1", "assistant", "jobs", jobID, "deliveries"]
    case CancelJob(jobID) => ["v1", "assistant", "jobs", jobID, "cancel"]
    case ReplayJob(jobID) => ["v1", "assistant", "jobs", jobID, "replay"]
    case QueryExpert => ["v1", "assistant", "query"]
    case GetExpertCapabilities => ["v1", "assistant", "experts"]
  }

  lemma FilledParts(call: Call)
    ensures Covers(TableParts(RouteOf(call)), IdOnly(IdOf(call)))
    ensures Fill(TableParts(RouteOf(call)), IdOnly(IdOf(call))) == PartsOf(call)
  {
    TableHoles(RouteOf(call));
    hide Hole;
  }

  /** What the client formats is the filled-in pattern of the route. */
  lemma PathIsFilled(call: Call)
    ensures var pattern, values := Routes()[RouteOf(call)].path, IdOnly(IdOf(call));
            Covers(SplitPath(pattern), values) && PathOf(call) == FillPath(pattern, values)
  {
    TableSplit(RouteOf(call));
    FilledParts(call);
    PathJoined(call);
    hide Join, SplitPath, Routes, TableParts, Fill, Covers, PathOf, PartsOf;
  }

  lemma PathJoined(call: Call)
    ensures PathOf(call) == "/" + Join(PartsOf(call), "/")
  {
    var parts := PartsOf(call);
    if HasID(call) {
      var jobID := call.jobID;
      var last := if call.GetJobStatus? then "" else parts[4];
      IdPath(jobID, last);
      PathText(jobID, "");
      PathText(jobID, "/" + last);
      assert jobID + "" == jobID && "jobs/" + jobID + "" == "jobs/" + jobID;
      assert "jobs/" + jobID + ("/" + last) == "jobs/" + jobID + "/" + last;
      assert "/v1/assistant/jobs/" + jobID + "" == "/v1/assistant/jobs/" + jobID;
      assert "/" + "result" == "/result" && "/" + "deliveries" == "/deliveries";
      assert "/" + "cancel" == "/cancel" && "/" + "replay" == "/replay";
      hide Join;
    } else {
      FlatTexts();
      AssistantPath(parts[2..]);
      assert parts == ["v1", "assistant"] + parts[2..] && parts[2..] == [parts[2]];
    }
  }

  lemma OnlyHole(parts: seq<string>, actual: seq<string>, params: Params, name: string, has: bool)
    requires |parts| == |actual| && Binds(parts, actual, |parts|, params) && (has ==> |parts| > 3)
    requires forall k :: 0 <= k < |parts| ==> Hole(parts[k]) == if has && k == 3 then Some(name) else None
    ensures params.Keys == if has then {name} else {}
  {
    hide Hole;
    if has { assert Hole(parts[3]).value in params; }
    forall x <- params ensures has && x == name {
      assert BoundTo(parts, actual, |parts|, x, params[x]);
    }
  }

  /** A match of a route binds its one hole, if it has one. */
  lemma RouteKeys(i: nat, path: string)
    requires i < 8 && MatchPath(Routes()[i].path, path).Some?
    ensures MatchPath(Routes()[i].path, path).value.Keys == if 1 <= i <= 5 then {"job_id"} else {}
  {
    var pattern := Routes()[i].path;
    assert 1 <= i <= 5 ==> |TableParts(i)| > 3;
    hide Hole, MatchPath, SplitPath, TableParts, Routes, Binds;
    TableSplit(i);
    TableHoles(i);
    MatchExact(pattern, path);
    OnlyHole(TableParts(i), SplitPath(path), MatchPath(pattern, path).value, "job_id", 1 <= i <= 5);
  }

  lemma InvokedRoute(i: nat, params: Params, call: Call)
    requires i < 8 && params.Keys == if 1 <= i <= 5 then {"job_id"} else {}
    ensures Invoked(Routes()[i].operation, params) == Some(call) <==>
            i == RouteOf(call) && params == if HasID(call) then IdOnly(IdOf(call)) else map[]
  {
    assert "getJobStatus"[6] == 'S' && "getJobResult"[6] == 'R' && "getJobDeliveries"[6] == 'D';
    assert "cancelJob"[0] == 'c' && "replayJob"[0] == 'r' && "queryExpert"[0] == 'q';
    assert "submitBriefJob"[0] == 's' && "getExpertCapabilities"[3] == 'E';
  }

  lemma ClientVerb(call: Call)
    ensures VerbOf(call) == Routes()[RouteOf(call)].verb && (Arrives(call) <==> Deliverable(RouteOf(call), IdOf(call)))
  {}

  lemma WantedIs(call: Call)
    ensures Wanted(RouteOf(call), IdOf(call)) ==
            (Routes()[RouteOf(call)].operation, if HasID(call) then IdOnly(IdOf(call)) else map[])
  {
    hide Routes, IdOnly;
  }

  /** A request is served as a call exactly when it is dispatched as wanted for that call. */
  lemma ServedExactly(verb: string, path: string, call: Call)
    ensures Served(Routes(), verb, path) == Some(call) <==>
            Dispatch(Routes(), verb, path) == Some(Wanted(RouteOf(call), IdOf(call)))
  {
    WantedIs(call);
    DispatchFinds(Routes(), verb, path);
    InvokedRoute(RouteOf(call), if HasID(call) then IdOnly(IdOf(call)) else map[], call);
    hide Dispatch, MatchPath, Invoked, Wanted;
    if Served(Routes(), verb, path) == Some(call) {
      var r :| r in Routes() && Matches(r, verb, path) && Some(Target(r, path)) == Dispatch(Routes(), verb, path);
      var j: nat :| j < 8 && Routes()[j] == r;
      hide Routes;
      RouteKeys(j, path);
      InvokedRoute(j, MatchPath(r.path, path).value, call);
    }
  }

  /** A call's route matches exactly the paths with its literal parts, whatever stands in place of the id. */
  lemma RouteMatches(path: string, call: Call)
    ensures var m := MatchPath(Routes()[RouteOf(call)].path, path);
            m == Some(if HasID(call) then IdOnly(IdOf(call)) else map[]) <==> SplitPath(path) == PartsOf(call)
  {
    var i := RouteOf(call);
    var pattern, actual := Routes()[i].path, SplitPath(path);
    TableSplit(i);
    MatchExact(pattern, path);
    PartsFit(call, actual);
    hide Hole, SplitPath, Routes, MatchPath, Binds, Fits;
    if MatchPath(pattern, path).Some? {
      RouteKeys(i, path);
      PartsBound(call, actual, MatchPath(pattern, path).value);
    }
  }

  /** The parts of a call, with any text where its id stands. */
  lemma PartsFit(call: Call, actual: seq<string>)
    ensures var p := TableParts(RouteOf(call));
            actual == PartsOf(call) ==> Fits(p, actual)
    ensures var p := TableParts(RouteOf(call));
            Fits(p, actual) ==> |actual| == |PartsOf(call)| && (HasID(call) ==> |actual| > 3)
                                && forall k :: 0 <= k < |actual| && !(HasID(call) && k == 3) ==> actual[k] == PartsOf(call)[k]
  {
    TableHoles(RouteOf(call));
    hide Hole;
  }

  lemma PartsBound(call: Call, actual: seq<string>, params: Params)
    requires var p := TableParts(RouteOf(call)); Fits(p, actual) && Binds(p, actual, |p|, params)
    requires params.Keys == if HasID(call) then {"job_id"} else {}
    ensures params == (if HasID(call) then IdOnly(IdOf(call)) else map[]) <==> actual == PartsOf(call)
  {
    PartsFit(call, actual);
    TableHoles(RouteOf(call));
    var p := TableParts(RouteOf(call));
    hide Hole, Fits, TableParts;
    if HasID(call) {
      assert PartsOf(call)[3] == call.jobID;
      assert BoundTo(p, actual, |p|, "job_id", params["job_id"]);
      var k: nat :| LastHole(p, |p|, "job_id", k) && params["job_id"] == actual[k];
      assert k == 3;
    }
  }

  /** Every request, whoever formed it, is served as a call exactly when it has the call's method and parts. */
  lemma RequestServedExactly(verb: string, path: string, call: Call)
    ensures Served(Routes(), verb, path) == Some(call) <==> verb == VerbOf(call) && SplitPath(path) == PartsOf(call)
  {
    var i := RouteOf(call);
    ServedExactly(verb, path, call);
    WantedIs(call);
    ClientVerb(call);
    RouteMatches(path, call);
    RouteBound(call);
    RouteListed(i);
    TableUnambiguous();
    var route := Routes()[i];
    DispatchWanted(route, verb, path);
    hide *;
  }

  lemma DispatchWanted(route: Route, verb: string, path: string)
    requires route in Routes() && Unambiguous(Routes())
    ensures forall params :: Dispatch(Routes(), verb, path) == Some((route.operation, params)) <==>
                             verb == route.verb && MatchPath(route.path, path) == Some(params)
  {
    DispatchFinds(Routes(), verb, path);
    var i: nat :| i < 8 && Routes()[i] == route;
    if Dispatch(Routes(), verb, path).Some? && Dispatch(Routes(), verb, path).value.0 == route.operation {
      var r :| r in Routes() && Matches(r, verb, path) && Some(Target(r, path)) == Dispatch(Routes(), verb, path);
      OperationRoute(r, i);
    }
    if verb == route.verb && MatchPath(route.path, path).Some? { DispatchTo(Routes(), route, path); }
    hide Dispatch, MatchPath, Routes, Unambiguous;
  }

  /** The implementation is asked exactly the call the client makes, if and only if its path can carry the id. */
  lemma ClientReachesExactly(call: Call)
    ensures Served(Routes(), VerbOf(call), PathOf(call)) == Some(call) <==> Arrives(call)
  {
    hide *;
    PathIsFilled(call);
    ClientVerb(call);
    RouteBound(call);
    RouteReachesExactly(RouteOf(call), IdOf(call));
    ServedExactly(VerbOf(call), PathOf(call), call);
  }

  lemma RouteBound(call: Call)
    ensures RouteOf(call) < 8
  {}

  /** So every call about an id the server has handed out arrives. */
  lemma JobIdsReach(call: Call, n: nat)
    requires HasID(call) && call.jobID == Jobs.JobId(n)
    ensures Served(Routes(), VerbOf(call), PathOf(call)) == Some(call)
  {
    assert Arrives(call) by { assert forall k :: 0 <= k < 4 ==> "job_"[k] != '/'; }
    hide Served, Routes, PathOf, VerbOf, Jobs.JobId;
    ClientReachesExactly(call);
  }

  /** Some id with a slash in it even arrives as another call. */
  lemma SlashedIdStrays()
    ensures var call := GetJobStatus("job_1/result");
            Served(Routes(), VerbOf(call), PathOf(call)) == Some(GetJobResult("job_1"))
  {
    assert PathOf(GetJobStatus("job_1/result")) == PathOf(GetJobResult("job_1")) by {
      assert "job_1/result" == "job_1" + "/result";
    }
    assert Free("job_1", '/') by { assert forall k :: 0 <= k < 5 ==> "job_1"[k] != '/'; }
    ClientReachesExactly(GetJobResult("job_1"));
    hide Served, Routes, PathOf;
  }
}
