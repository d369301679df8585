/** Soundness, exactness and progress of the replan, for paths whose kept segments have no white
    space at their outer edges. */
module ReplanProgress {
  import opened Options
  import opened Strings
  import opened ObjectivePaths
  import opened ClaimPlan
  import opened Replanning

  ghost predicate AllClean(raw: seq<string>) { forall i :: 0 <= i < |raw| ==> CleanEdges(raw[i]) }

  /** The text in front of the last "#" of an endpoint, "" when there is none. */
  function CallerText(endpoint: string): string {
    var after := AfterHash(endpoint);
    if after > 1 then endpoint[..after - 1] else ""
  }

  ghost predicate CleanObjective(o: Objective) {
    && AllClean(o.requiredPaths)
    && (forall c :: c in o.claims ==> AllClean(c.requiredPaths))
    && (forall e :: e in o.edges ==> CleanEdges(CallerText(e.from)))
  }

  ghost predicate CleanInput(input: Input) { CleanObjective(input.objective) && AllClean(input.retained) }

  // ---- What is needed ----

  /** The claim declares the path, it is not complete, and the claim's earlier proof is not retained in full. */
  predicate NeededByClaim(c: ObjectiveClaim, priors: seq<PriorClaim>, complete: set<string>, p: string) {
    NamedBy(p, c.requiredPaths) && p !in complete && !PriorProofRetained(Restored(priors, c.claimId), complete)
  }

  predicate NeededByEdge(e: EvidenceEdge, complete: set<string>, p: string) {
    p != "" && PathFromEndpoint(e.from) == p && p !in complete
  }

  /** The declared paths that still have to be read, stated without the requests. */
  predicate Needed(o: Objective, priors: seq<PriorClaim>, complete: set<string>, p: string) {
    || (NamedBy(p, o.requiredPaths) && p !in complete)
    || (exists c :: c in o.claims && NeededByClaim(c, priors, complete, p))
    || (exists e :: e in o.edges && NeededByEdge(e, complete, p))
  }

  predicate FromObjective(o: Objective, complete: set<string>, r: Request) {
    r == Request(r.path, MissingRequiredPath, "", "") && NamedBy(r.path, o.requiredPaths) && r.path !in complete
  }

  predicate FromClaim(c: ObjectiveClaim, priors: seq<PriorClaim>, complete: set<string>, r: Request) {
    r == Request(r.path, MissingClaimPath, c.claimId, "") && NeededByClaim(c, priors, complete, r.path)
  }

  predicate FromEdge(e: EvidenceEdge, r: Request) {
    r == Request(r.path, MissingEdgeCallerPath, "", EdgeKeyOf(e)) && r.path != "" && PathFromEndpoint(e.from) == r.path
  }

  // ---- The requests of a plan are exactly the needs ----

  lemma Stable(raw: string)
    requires CleanEdges(raw)
    ensures Normalize(Normalize(raw)) == Normalize(raw) && CleanEdges(Normalize(raw))
  {
    IdempotentIff(raw);
    IdempotentIff(Normalize(raw));
  }

  lemma NamedIsStable(p: string, raw: seq<string>)
    requires AllClean(raw) && NamedBy(p, raw)
    ensures Normalize(p) == p && CleanEdges(p)
  {
    var i :| 0 <= i < |raw| && Normalize(raw[i]) == p;
    Stable(raw[i]);
  }

  lemma DistinctPathsFacts(raw: seq<string>)
    ensures forall p :: p in DistinctPaths(raw) <==> NamedBy(p, raw)
  {
    NormalizeAllFacts(raw);
    DistinctFacts(NormalizeAll(raw));
  }

  lemma PathRequestsMember(paths: seq<string>, reason: TargetReason, claimId: string, r: Request)
    requires forall p :: p in paths ==> Normalize(p) == p
    ensures r in PathRequests(paths, reason, claimId) <==> r == Request(r.path, reason, claimId, "") && r.path in paths
  {
    var rs := PathRequests(paths, reason, claimId);
    if r == Request(r.path, reason, claimId, "") && r.path in paths {
      var i :| 0 <= i < |paths| && paths[i] == r.path;
      assert rs[i] == r;
    }
    if r in rs {
      var i :| 0 <= i < |rs| && rs[i] == r;
      assert paths[i] in paths;
    }
  }

  lemma CallerIsStable(endpoint: string)
    requires CleanEdges(CallerText(endpoint))
    ensures Normalize(PathFromEndpoint(endpoint)) == PathFromEndpoint(endpoint)
  {
    Stable(CallerText(endpoint));
    NormalizeYieldsNormal("");
  }

  /** The single path of an edge's request, when it makes one. */
  lemma EdgeRequestFacts(e: EvidenceEdge, r: Request)
    requires CleanEdges(CallerText(e.from))
    ensures r in RequestsOfEdge(e) <==> FromEdge(e, r)
  {
    CallerIsStable(e.from);
  }

  lemma EdgeRequestsMember(edges: seq<EvidenceEdge>, r: Request)
    requires forall e :: e in edges ==> CleanEdges(CallerText(e.from))
    ensures r in EdgeRequests(edges) <==> exists e :: e in edges && FromEdge(e, r)
  {
    FlatMember(edges, RequestsOfEdge, r);
    forall e | e in edges ensures r in RequestsOfEdge(e) <==> FromEdge(e, r) {
      EdgeRequestFacts(e, r);
    }
  }

  /** Completeness is judged on the same paths by the plan and by the replan. */
  lemma PlanSeesCompletePaths(input: Input)
    requires AllClean(input.retained)
    ensures PathSet(CompleteOf(input, DistinctPaths(input.retained))) == CompleteSet(input)
  {
    var paths := DistinctPaths(input.retained);
    var done := CompleteOf(input, paths);
    DistinctPathsFacts(input.retained);
    NormalizeAllFacts(input.retained);
    NormalizeAllFacts(done);
    forall p: string ensures NamedBy(p, done) <==> p in done {
      forall i | 0 <= i < |done| ensures Normalize(done[i]) == done[i] {
        NamedIsStable(done[i], input.retained);
      }
      if p in done {
        var i :| 0 <= i < |done| && done[i] == p;
        assert NamedBy(p, done);
      }
    }
  }

  lemma ObjectiveRequestFacts(raw: seq<string>, complete: set<string>, reason: TargetReason, id: string, r: Request)
    requires AllClean(raw)
    ensures r in PathRequests(Missing(DistinctPaths(raw), complete), reason, id) <==>
      r == Request(r.path, reason, id, "") && NamedBy(r.path, raw) && r.path !in complete
  {
    DistinctPathsFacts(raw);
    var missing := Missing(DistinctPaths(raw), complete);
    forall p | p in missing ensures Normalize(p) == p {
      NamedIsStable(p, raw);
    }
    PathRequestsMember(missing, reason, id, r);
  }

  lemma ClaimRequestFacts(c: ObjectiveClaim, priors: seq<PriorClaim>, complete: set<string>, r: Request)
    requires AllClean(c.requiredPaths)
    ensures r in RequestsOfClaim(PlanClaim(c, complete, priors)) <==> FromClaim(c, priors, complete, r)
  {
    ObjectiveRequestFacts(c.requiredPaths, complete, MissingClaimPath, c.claimId, r);
  }

  lemma ClaimRequestsMember(o: Objective, plan: Plan, priors: seq<PriorClaim>, complete: set<string>, r: Request)
    requires forall c :: c in o.claims ==> AllClean(c.requiredPaths)
    requires |plan.claims| == |o.claims|
    requires forall i :: 0 <= i < |o.claims| ==> plan.claims[i] == PlanClaim(o.claims[i], complete, priors)
    ensures r in ClaimRequests(plan.claims) <==> exists c :: c in o.claims && FromClaim(c, priors, complete, r)
  {
    FlatMember(plan.claims, RequestsOfClaim, r);
    forall i | 0 <= i < |o.claims|
      ensures r in RequestsOfClaim(plan.claims[i]) <==> FromClaim(o.claims[i], priors, complete, r)
    {
      ClaimRequestFacts(o.claims[i], priors, complete, r);
    }
  }

  predicate Justified(o: Objective, priors: seq<PriorClaim>, complete: set<string>, r: Request) {
    || FromObjective(o, complete, r)
    || (exists c :: c in o.claims && FromClaim(c, priors, complete, r))
    || (exists e :: e in o.edges && FromEdge(e, r))
  }

  /** A request is made exactly when the objective, one of its claims or one of its edges calls for it. */
  lemma RequestsExactly(input: Input, r: Request)
    requires CleanInput(input)
    ensures r in Requests(input) <==> Justified(input.objective, input.priors, CompleteSet(input), r)
  {
    var o, complete, plan := input.objective, CompleteSet(input), PlanOf(input);
    PlanSeesCompletePaths(input);
    ObjectiveRequestFacts(o.requiredPaths, complete, MissingRequiredPath, "", r);
    ClaimRequestsMember(o, plan, input.priors, complete, r);
    EdgeRequestsMember(o.edges, r);
  }

  // ---- Exactness ----

  lemma {:induction false} ClaimsNeedingMember(rs: seq<Request>, p: string, id: string)
    ensures id in ClaimsNeeding(rs, p) <==> id != "" && exists r :: r in rs && r.path == p && r.claimId == id
  {
    if rs != [] {
      var rest, r := rs[..|rs| - 1], rs[|rs| - 1];
      ClaimsNeedingMember(rest, p, id);
      assert rs == rest + [r];
    }
  }

  lemma {:induction false} EdgesNeedingMember(rs: seq<Request>, p: string, key: string)
    ensures key in EdgesNeeding(rs, p) <==> key != "" && exists r :: r in rs && r.path == p && r.edgeKey == key
  {
    if rs != [] {
      var rest, r := rs[..|rs| - 1], rs[|rs| - 1];
      EdgesNeedingMember(rest, p, key);
      assert rs == rest + [r];
    }
  }

  lemma NeededIsRequested(input: Input, p: string)
    requires CleanInput(input)
    ensures Open(CompleteSet(input), p) && Requested(Requests(input), p) <==>
            Needed(input.objective, input.priors, CompleteSet(input), p)
  {
    var o, priors, complete, rs := input.objective, input.priors, CompleteSet(input), Requests(input);
    if Requested(rs, p) {
      var i :| 0 <= i < |rs| && rs[i].path == p;
      RequestsExactly(input, rs[i]);
    }
    if Needed(o, priors, complete, p) {
      var r := NeedingRequest(o, priors, complete, p);
      RequestsExactly(input, r);
      assert r in rs;
      var i :| 0 <= i < |rs| && rs[i] == r;
    }
  }

  lemma NeedingRequest(o: Objective, priors: seq<PriorClaim>, complete: set<string>, p: string) returns (r: Request)
    requires Needed(o, priors, complete, p)
    ensures r.path == p && p != "" && p !in complete && Justified(o, priors, complete, r)
  {
    if NamedBy(p, o.requiredPaths) && p !in complete {
      r := Request(p, MissingRequiredPath, "", "");
    } else if c :| c in o.claims && NeededByClaim(c, priors, complete, p) {
      r := Request(p, MissingClaimPath, c.claimId, "");
      assert FromClaim(c, priors, complete, r);
    } else {
      var e :| e in o.edges && NeededByEdge(e, complete, p);
      r := Request(p, MissingEdgeCallerPath, "", EdgeKeyOf(e));
      assert FromEdge(e, r);
    }
  }

  lemma RequestOfClaim(input: Input, c: ObjectiveClaim, p: string)
    requires CleanInput(input) && c in input.objective.claims && NeededByClaim(c, input.priors, CompleteSet(input), p)
    ensures Request(p, MissingClaimPath, c.claimId, "") in Requests(input)
  {
    var r := Request(p, MissingClaimPath, c.claimId, "");
    assert FromClaim(c, input.priors, CompleteSet(input), r);
    RequestsExactly(input, r);
  }

  lemma ClaimOfRequest(input: Input, r: Request) returns (c: ObjectiveClaim)
    requires CleanInput(input) && r in Requests(input) && r.claimId != ""
    ensures c in input.objective.claims && c.claimId == r.claimId && NeededByClaim(c, input.priors, CompleteSet(input), r.path)
  {
    RequestsExactly(input, r);
    c :| c in input.objective.claims && FromClaim(c, input.priors, CompleteSet(input), r);
  }

  lemma ClaimIdsExactly(input: Input, p: string, id: string)
    requires CleanInput(input) && Open(CompleteSet(input), p)
    ensures id in Distinct(ClaimsNeeding(Requests(input), p)) <==>
      id != "" && exists c :: c in input.objective.claims && c.claimId == id && NeededByClaim(c, input.priors, CompleteSet(input), p)
  {
    var rs := Requests(input);
    ClaimsNeedingMember(rs, p, id);
    DistinctFacts(ClaimsNeeding(rs, p));
    if id in ClaimsNeeding(rs, p) {
      var r :| r in rs && r.path == p && r.claimId == id;
      var c := ClaimOfRequest(input, r);
    }
    if c :| c in input.objective.claims && c.claimId == id && NeededByClaim(c, input.priors, CompleteSet(input), p) {
      RequestOfClaim(input, c, p);
    }
  }

  lemma EdgeKeyIsNotEmpty(e: EvidenceEdge)
    ensures EdgeKeyOf(e) != ""
  {
    assert |EdgeKeyOf(e)| >= 2;
  }

  lemma RequestOfEdge(input: Input, e: EvidenceEdge, p: string)
    requires CleanInput(input) && e in input.objective.edges && NeededByEdge(e, CompleteSet(input), p)
    ensures Request(p, MissingEdgeCallerPath, "", EdgeKeyOf(e)) in Requests(input)
  {
    var r := Request(p, MissingEdgeCallerPath, "", EdgeKeyOf(e));
    assert FromEdge(e, r);
    RequestsExactly(input, r);
  }

  lemma EdgeOfRequest(input: Input, r: Request) returns (e: EvidenceEdge)
    requires CleanInput(input) && r in Requests(input) && r.edgeKey != "" && Open(CompleteSet(input), r.path)
    ensures e in input.objective.edges && EdgeKeyOf(e) == r.edgeKey && NeededByEdge(e, CompleteSet(input), r.path)
  {
    RequestsExactly(input, r);
    e :| e in input.objective.edges && FromEdge(e, r);
  }

  lemma EdgeKeysExactly(input: Input, p: string, key: string)
    requires CleanInput(input) && Open(CompleteSet(input), p)
    ensures key in Distinct(EdgesNeeding(Requests(input), p)) <==>
      exists e :: e in input.objective.edges && EdgeKeyOf(e) == key && NeededByEdge(e, CompleteSet(input), p)
  {
    var rs := Requests(input);
    EdgesNeedingMember(rs, p, key);
    DistinctFacts(EdgesNeeding(rs, p));
    if key in EdgesNeeding(rs, p) {
      var r :| r in rs && r.path == p && r.edgeKey == key;
      var e := EdgeOfRequest(input, r);
    }
    if e :| e in input.objective.edges && EdgeKeyOf(e) == key && NeededByEdge(e, CompleteSet(input), p) {
      RequestOfEdge(input, e, p);
      EdgeKeyIsNotEmpty(e);
    }
  }

  /** A target names exactly the claims and the edges that need its path. */
  ghost predicate NamesItsNeeds(input: Input, t: TargetView) {
    && (forall id :: id in t.claimIds <==>
          id != "" && exists c :: c in input.objective.claims && c.claimId == id && NeededByClaim(c, input.priors, CompleteSet(input), t.path))
    && (forall key :: key in t.edgeKeys <==>
          exists e :: e in input.objective.edges && EdgeKeyOf(e) == key && NeededByEdge(e, CompleteSet(input), t.path))
  }

  lemma TargetNamesItsNeeds(input: Input, p: string)
    requires CleanInput(input) && Open(CompleteSet(input), p)
    ensures NamesItsNeeds(input, TargetFor(Requests(input), p))
  {
    forall id: string { ClaimIdsExactly(input, p, id); }
    forall key: string { EdgeKeysExactly(input, p, key); }
  }

  lemma {:induction false} FirstReasonAppend(a: seq<Request>, b: seq<Request>, p: string)
    ensures FirstReason(a + b, p) == if Requested(a, p) then FirstReason(a, p) else FirstReason(b, p)
  {
    if a == [] {
      assert a + b == b;
    } else {
      FirstReasonAppend(a[1..], b, p);
      assert (a + b)[1..] == a[1..] + b;
      assert a == [a[0]] + a[1..];
      if a[0].path != p {
        RequestedIn(a, p);
        RequestedIn(a[1..], p);
      }
    }
  }

  lemma RequestedIn(rs: seq<Request>, p: string)
    ensures Requested(rs, p) <==> exists r :: r in rs && r.path == p
  {
    if r :| r in rs && r.path == p {
      var i :| 0 <= i < |rs| && rs[i] == r;
    }
  }

  lemma {:induction false} OneReason(rs: seq<Request>, p: string, reason: TargetReason)
    requires Requested(rs, p) && forall r :: r in rs ==> r.reason == reason
    ensures FirstReason(rs, p) == reason
  {
    if rs[0].path != p {
      assert rs == [rs[0]] + rs[1..];
      RequestedIn(rs, p);
      RequestedIn(rs[1..], p);
      OneReason(rs[1..], p, reason);
    }
  }

  predicate NeededByAClaim(input: Input, p: string) {
    exists c :: c in input.objective.claims && NeededByClaim(c, input.priors, CompleteSet(input), p)
  }

  lemma ObjectivePart(input: Input, p: string)
    requires CleanInput(input) && Open(CompleteSet(input), p)
    ensures var rs := PathRequests(PlanOf(input).missingObjectivePaths, MissingRequiredPath, "");
      && (Requested(rs, p) <==> NamedBy(p, input.objective.requiredPaths))
      && forall r :: r in rs ==> r.reason == MissingRequiredPath
  {
    var rs := PathRequests(PlanOf(input).missingObjectivePaths, MissingRequiredPath, "");
    PlanSeesCompletePaths(input);
    forall r: Request
      ensures r in rs <==> FromObjective(input.objective, CompleteSet(input), r)
    {
      ObjectiveRequestFacts(input.objective.requiredPaths, CompleteSet(input), MissingRequiredPath, "", r);
    }
    RequestedIn(rs, p);
    assert FromObjective(input.objective, CompleteSet(input), Request(p, MissingRequiredPath, "", "")) <==>
           NamedBy(p, input.objective.requiredPaths);
  }

  predicate FromAClaim(input: Input, r: Request) {
    exists c :: c in input.objective.claims && FromClaim(c, input.priors, CompleteSet(input), r)
  }

  lemma {:induction false} ClaimMembers(input: Input)
    requires CleanInput(input)
    ensures forall r :: r in ClaimRequests(PlanOf(input).claims) <==> FromAClaim(input, r)
  {
    PlanSeesCompletePaths(input);
    forall r: Request ensures r in ClaimRequests(PlanOf(input).claims) <==> FromAClaim(input, r) {
      ClaimRequestsMember(input.objective, PlanOf(input), input.priors, CompleteSet(input), r);
    }
  }

  lemma {:induction false} ClaimPart(input: Input, p: string)
    requires CleanInput(input)
    ensures var rs := ClaimRequests(PlanOf(input).claims);
      && (Requested(rs, p) <==> NeededByAClaim(input, p))
      && forall r :: r in rs ==> r.reason == MissingClaimPath
  {
    var rs := ClaimRequests(PlanOf(input).claims);
    ClaimMembers(input);
    RequestedIn(rs, p);
    if c :| c in input.objective.claims && NeededByClaim(c, input.priors, CompleteSet(input), p) {
      assert FromAClaim(input, Request(p, MissingClaimPath, c.claimId, ""));
    }
  }

  lemma EdgePart(edges: seq<EvidenceEdge>)
    requires forall e :: e in edges ==> CleanEdges(CallerText(e.from))
    ensures forall r :: r in EdgeRequests(edges) ==> r.reason == MissingEdgeCallerPath
  {
    forall r | r in EdgeRequests(edges) ensures r.reason == MissingEdgeCallerPath {
      EdgeRequestsMember(edges, r);
    }
  }

  /** Why a needed path is read: the objective itself comes first, then a claim, then an edge. */
  function ReasonFor(input: Input, p: string): TargetReason {
    if NamedBy(p, input.objective.requiredPaths) then MissingRequiredPath
    else if NeededByAClaim(input, p) then MissingClaimPath
    else MissingEdgeCallerPath
  }

  lemma ReasonExactly(input: Input, p: string)
    requires CleanInput(input) && Open(CompleteSet(input), p) && Requested(Requests(input), p)
    ensures FirstReason(Requests(input), p) == ReasonFor(input, p)
  {
    var plan := PlanOf(input);
    var a := PathRequests(plan.missingObjectivePaths, MissingRequiredPath, "");
    var b, c := ClaimRequests(plan.claims), EdgeRequests(input.objective.edges);
    ObjectivePart(input, p);
    ClaimPart(input, p);
    EdgePart(input.objective.edges);
    ReasonOfParts(a, b, c, p);
  }

  lemma ReasonOfParts(a: seq<Request>, b: seq<Request>, c: seq<Request>, p: string)
    requires Requested(a + b + c, p)
    requires forall r :: r in a ==> r.reason == MissingRequiredPath
    requires forall r :: r in b ==> r.reason == MissingClaimPath
    requires forall r :: r in c ==> r.reason == MissingEdgeCallerPath
    ensures FirstReason(a + b + c, p) ==
      if Requested(a, p) then MissingRequiredPath else if Requested(b, p) then MissingClaimPath else MissingEdgeCallerPath
  {
    FirstReasonAppend(a + b, c, p);
    FirstReasonAppend(a, b, p);
    RequestedIn(a + b + c, p);
    RequestedIn(a + b, p);
    RequestedIn(a, p);
    RequestedIn(b, p);
    RequestedIn(c, p);
    if Requested(a, p) {
      OneReason(a, p, MissingRequiredPath);
    } else if Requested(b, p) {
      OneReason(b, p, MissingClaimPath);
    } else {
      OneReason(c, p, MissingEdgeCallerPath);
    }
  }

  ghost predicate NeededNow(input: Input, p: string) { Needed(input.objective, input.priors, CompleteSet(input), p) }

  predicate Targeted(ts: seq<TargetView>, p: string) { exists i :: 0 <= i < |ts| && ts[i].path == p }

  /** The replan asks for distinct, declared, incomplete paths, at most as many as the cap, says who
      needs each, and leaves no needed path out unless the cap is reached. */
  lemma ReplanIsExact(input: Input)
    requires CleanInput(input)
    ensures var ts := Replan(input);
      && |ts| <= Cap(input.maxTargets) <= MAX_TARGETS
      && (forall i, j :: 0 <= i < j < |ts| ==> ts[i].path != ts[j].path)
      && (forall i :: 0 <= i < |ts| ==> NeededNow(input, ts[i].path) && !IsCompletePath(input, ts[i].path))
      && (forall i :: 0 <= i < |ts| ==> NamesItsNeeds(input, ts[i]) && ts[i].reason == ReasonFor(input, ts[i].path))
      && (|ts| < Cap(input.maxTargets) ==> forall p :: NeededNow(input, p) ==> Targeted(ts, p))
  {
    var rs, complete, cap, ts := Requests(input), CompleteSet(input), Cap(input.maxTargets), Replan(input);
    var ps := TargetPaths(complete, cap, rs);
    TargetPathsFacts(complete, cap, rs);
    forall i | 0 <= i < |ts|
      ensures ts[i].path == ps[i] && NeededNow(input, ps[i]) && !IsCompletePath(input, ps[i])
      ensures NamesItsNeeds(input, ts[i]) && ts[i].reason == ReasonFor(input, ps[i])
    {
      ReasonExactly(input, ps[i]);
      NeededIsRequested(input, ps[i]);
      TargetNamesItsNeeds(input, ps[i]);
    }
    if |ts| < cap {
      forall p | NeededNow(input, p) ensures Targeted(ts, p) {
        NeededIsRequested(input, p);
        var i :| 0 <= i < |ps| && ps[i] == p;
        assert ts[i].path == p;
      }
    }
  }

  // ---- Progress ----

  /** Reading more never makes a path needed again. */
  lemma NeedsOnlyShrink(o: Objective, priors: seq<PriorClaim>, before: set<string>, after: set<string>, p: string)
    requires before <= after && Needed(o, priors, after, p)
    ensures Needed(o, priors, before, p)
  {
    if c :| c in o.claims && NeededByClaim(c, priors, after, p) {
      assert NeededByClaim(c, priors, before, p);
    } else if e :| e in o.edges && NeededByEdge(e, after, p) {
      assert NeededByEdge(e, before, p);
    }
  }

  function PathsOf(ts: seq<TargetView>): seq<string> { seq(|ts|, i requires 0 <= i < |ts| => ts[i].path) }

  function ReadInFull(paths: seq<string>): seq<Status> {
    seq(|paths|, i requires 0 <= i < |paths| => Status(paths[i], ReadComplete))
  }

  /** The next input after every path of `paths` was read in full. */
  function AfterReading(input: Input, paths: seq<string>): Input {
    input.(retained := input.retained + paths, statuses := input.statuses + ReadInFull(paths))
  }

  ghost predicate AllStable(paths: seq<string>) {
    forall p :: p in paths ==> p != "" && Normalize(p) == p && CleanEdges(p)
  }

  lemma {:induction false} LastStatusAfterReading(statuses: seq<Status>, paths: seq<string>, p: string)
    ensures LastStatus(statuses + ReadInFull(paths), p) == if p in paths then Some(ReadComplete) else LastStatus(statuses, p)
  {
    var all := statuses + ReadInFull(paths);
    if paths == [] {
      assert all == statuses;
    } else {
      var rest, last := paths[..|paths| - 1], paths[|paths| - 1];
      LastStatusAfterReading(statuses, rest, p);
      assert paths == rest + [last];
      assert all[..|all| - 1] == statuses + ReadInFull(rest);
    }
  }

  lemma RespelledStable(paths: seq<string>)
    requires AllStable(paths)
    ensures Respelled(ReadInFull(paths)) == ReadInFull(paths)
  {
    forall i | 0 <= i < |paths| ensures Respelled(ReadInFull(paths))[i] == ReadInFull(paths)[i] {
      assert paths[i] in paths;
    }
  }

  lemma StatusAfterReading(statuses: seq<Status>, paths: seq<string>, p: string)
    requires AllStable(paths) && p != ""
    ensures StatusOf(statuses + ReadInFull(paths), p) == if p in paths then Some(ReadComplete) else StatusOf(statuses, p)
  {
    LastStatusAfterReading(Respelled(statuses), paths, p);
    MappedAppend(statuses, ReadInFull(paths), Respell);
    RespelledStable(paths);
  }

  lemma NamedByAppend(p: string, raw: seq<string>, paths: seq<string>)
    requires AllStable(paths)
    ensures NamedBy(p, raw + paths) <==> NamedBy(p, raw) || p in paths
  {
    var all := raw + paths;
    if NamedBy(p, all) {
      var i :| 0 <= i < |all| && Normalize(all[i]) == p;
      if i < |raw| {
        assert raw[i] == all[i];
      } else {
        assert paths[i - |raw|] in paths;
      }
    }
    if NamedBy(p, raw) {
      var i :| 0 <= i < |raw| && Normalize(raw[i]) == p;
      assert all[i] == raw[i];
    }
    if p in paths {
      var i :| 0 <= i < |paths| && paths[i] == p;
      assert all[|raw| + i] == p;
    }
  }

  lemma CompleteMember(input: Input, p: string)
    ensures p in CompleteSet(input) <==>
      NamedBy(p, input.retained) && StatusOf(input.statuses, p) !in {Some(ReadTruncated), Some(ReadFailed)}
  {
    NormalizeAllFacts(input.retained);
  }

  /** Reading paths in full completes them and no others. */
  lemma ReadingCompletes(input: Input, paths: seq<string>)
    requires AllStable(paths)
    ensures CompleteSet(AfterReading(input, paths)) == CompleteSet(input) + Elements(paths)
  {
    var next := AfterReading(input, paths);
    forall p: string ensures p in CompleteSet(next) <==> p in CompleteSet(input) || p in paths {
      CompleteMember(input, p);
      CompleteMember(next, p);
      NamedByAppend(p, input.retained, paths);
      if p != "" {
        StatusAfterReading(input.statuses, paths, p);
      }
    }
  }

  // ---- Rounds ----

  /** The needed paths, as a finite set. */
  function NeedSet(input: Input): set<string> { Elements(OpenPaths(CompleteSet(input), Requests(input))) }

  lemma NeedSetFacts(input: Input)
    requires CleanInput(input)
    ensures forall p :: p in NeedSet(input) <==> NeededNow(input, p)
  {
    OpenPathsFacts(CompleteSet(input), Requests(input));
    forall p: string { NeededIsRequested(input, p); }
  }

  lemma TargetCount(complete: set<string>, cap: nat, rs: seq<Request>)
    ensures var ps, open := TargetPaths(complete, cap, rs), Elements(OpenPaths(complete, rs));
      && |ps| == (if |open| < cap then |open| else cap)
      && Elements(ps) <= open && |Elements(ps)| == |ps|
  {
    var all, ps := OpenPaths(complete, rs), TargetPaths(complete, cap, rs);
    DistinctFacts(all);
    DistinctSize(Distinct(all));
    assert Elements(Distinct(all)) == Elements(all);
    DistinctSize(ps);
    forall p | p in ps ensures p in all {
      assert p in Distinct(all);
    }
  }

  lemma PathsOfTargets(complete: set<string>, cap: nat, rs: seq<Request>)
    ensures PathsOf(TargetsOf(complete, cap, rs)) == TargetPaths(complete, cap, rs)
  {
  }

  /** The replan has as many targets as the cap and the needs allow. */
  lemma ReplanSize(input: Input)
    ensures |Replan(input)| == if |NeedSet(input)| < Cap(input.maxTargets) then |NeedSet(input)| else Cap(input.maxTargets)
    ensures Elements(PathsOf(Replan(input))) <= NeedSet(input) && |Elements(PathsOf(Replan(input)))| == |Replan(input)|
  {
    var complete, rs, cap := CompleteSet(input), Requests(input), Cap(input.maxTargets);
    TargetCount(complete, cap, rs);
    PathsOfTargets(complete, cap, rs);
  }

  function Round(input: Input): Input { AfterReading(input, PathsOf(Replan(input))) }

  lemma NeededIsStable(input: Input, p: string)
    requires CleanInput(input) && NeededNow(input, p)
    ensures p != "" && Normalize(p) == p && CleanEdges(p)
  {
    var o, priors, complete := input.objective, input.priors, CompleteSet(input);
    if NamedBy(p, o.requiredPaths) {
      NamedIsStable(p, o.requiredPaths);
    } else if c :| c in o.claims && NeededByClaim(c, priors, complete, p) {
      NamedIsStable(p, c.requiredPaths);
    } else {
      var e :| e in o.edges && NeededByEdge(e, complete, p);
      Stable(CallerText(e.from));
    }
  }

  lemma TargetsAreStable(input: Input)
    requires CleanInput(input)
    ensures AllStable(PathsOf(Replan(input)))
  {
    var ts := Replan(input);
    var paths := PathsOf(ts);
    ReplanIsExact(input);
    forall p | p in paths ensures p != "" && Normalize(p) == p && CleanEdges(p) {
      var i :| 0 <= i < |paths| && paths[i] == p;
      NeededIsStable(input, ts[i].path);
    }
  }

  lemma StaysClean(raw: seq<string>, paths: seq<string>)
    requires AllClean(raw) && AllStable(paths)
    ensures AllClean(raw + paths)
  {
    var all := raw + paths;
    forall i | 0 <= i < |all| ensures CleanEdges(all[i]) {
      if i < |raw| {
        assert all[i] == raw[i];
      } else {
        assert all[i] == paths[i - |raw|] && all[i] in paths;
      }
    }
  }

  lemma RoundFacts(input: Input)
    requires CleanInput(input)
    ensures CleanInput(Round(input))
    ensures CompleteSet(Round(input)) == CompleteSet(input) + Elements(PathsOf(Replan(input)))
  {
    var paths := PathsOf(Replan(input));
    TargetsAreStable(input);
    ReadingCompletes(input, paths);
    StaysClean(input.retained, paths);
  }

  /** A round leaves of the needs at most those that were not targets. */
  lemma RoundShrinks(input: Input)
    requires CleanInput(input)
    ensures NeedSet(Round(input)) <= NeedSet(input) - Elements(PathsOf(Replan(input)))
    ensures |NeedSet(Round(input))| <= |NeedSet(input)| - |Replan(input)|
  {
    var next := Round(input);
    var read := Elements(PathsOf(Replan(input)));
    RoundFacts(input);
    NeedSetFacts(input);
    NeedSetFacts(next);
    forall p | p in NeedSet(next) ensures p in NeedSet(input) && p !in read {
      NeedsOnlyShrink(input.objective, input.priors, CompleteSet(input), CompleteSet(next), p);
      NeededIsRequested(next, p);
    }
    ReplanSize(input);
    SubsetSize(NeedSet(next), NeedSet(input) - read);
    assert |NeedSet(input) - read| == |NeedSet(input)| - |read|;
  }

  predicate Follows(before: Input, after: Input) { after == Round(before) }

  ghost predicate IsRounds(run: seq<Input>) {
    run != [] && forall i :: 0 < i < |run| ==> Follows(run[i - 1], run[i])
  }

  /** A round keeps the input clean and leaves at most the needs beyond the cap. */
  lemma RoundStep(before: Input, after: Input)
    requires Follows(before, after) && CleanInput(before)
    ensures CleanInput(after) && after.maxTargets == before.maxTargets
    ensures Left(after) <= if Left(before) < Cap(before.maxTargets) then 0 else Left(before) - Cap(before.maxTargets)
  {
    RoundFacts(before);
    RoundShrinks(before);
    ReplanSize(before);
  }

  function Left(input: Input): nat { |NeedSet(input)| }

  ghost predicate Finished(input: Input) { Replan(input) == [] && forall p :: !NeededNow(input, p) }

  lemma NoNeedsIsFinished(input: Input)
    requires CleanInput(input) && |NeedSet(input)| == 0
    ensures Finished(input)
  {
    ReplanSize(input);
    NeedSetFacts(input);
  }

  /** Counting down by a cap's worth at a time, n steps are enough for n caps. */
  lemma {:induction false} CountDown(sizes: seq<nat>, cap: nat)
    requires sizes != [] && (|sizes| - 1) * cap >= sizes[0]
    requires forall i :: 0 < i < |sizes| ==> sizes[i] == 0 || sizes[i] <= sizes[i - 1] - cap
    ensures sizes[|sizes| - 1] == 0
    decreases |sizes|
  {
    if |sizes| > 1 {
      assert (|sizes| - 1) * cap == (|sizes| - 2) * cap + cap;
      CountDown(sizes[1..], cap);
    }
  }

  /** What holds first and passes from each state to the next holds throughout. */
  lemma {:induction false} HoldsThroughout<S>(run: seq<S>, holds: S -> bool, i: nat)
    requires i < |run| && holds(run[0]) && forall k :: 0 < k < |run| && holds(run[k - 1]) ==> holds(run[k])
    ensures holds(run[i])
  {
    if i > 0 {
      HoldsThroughout(run, holds, i - 1);
    }
  }

  lemma RunStaysClean(run: seq<Input>, i: nat)
    requires IsRounds(run) && CleanInput(run[0]) && i < |run|
    ensures CleanInput(run[i]) && run[i].maxTargets == run[0].maxTargets
  {
    ghost var holds := (x: Input) => CleanInput(x) && x.maxTargets == run[0].maxTargets;
    forall k | 0 < k < |run| && holds(run[k - 1]) ensures holds(run[k]) {
      RoundStep(run[k - 1], run[k]);
    }
    HoldsThroughout(run, holds, i);
  }

  lemma LeftShrinks(run: seq<Input>, i: nat)
    requires IsRounds(run) && CleanInput(run[0]) && 0 < i < |run|
    ensures Left(run[i]) == 0 || Left(run[i]) <= Left(run[i - 1]) - Cap(run[0].maxTargets)
  {
    RunStaysClean(run, i - 1);
    RoundStep(run[i - 1], run[i]);
  }

  /** Rounds of complete reads, a cap's worth of targets at a time, read everything needed, and the
      replan is then empty. */
  lemma RoundsFinish(run: seq<Input>)
    requires IsRounds(run) && CleanInput(run[0])
    requires (|run| - 1) * Cap(run[0].maxTargets) >= Left(run[0])
    ensures Finished(run[|run| - 1])
  {
    var sizes := Mapped(run, Left);
    forall i | 0 < i < |sizes| ensures sizes[i] == 0 || sizes[i] <= sizes[i - 1] - Cap(run[0].maxTargets) {
      LeftShrinks(run, i);
    }
    CountDown(sizes, Cap(run[0].maxTargets));
    RunStaysClean(run, |run| - 1);
    NoNeedsIsFinished(run[|run| - 1]);
  }
}
