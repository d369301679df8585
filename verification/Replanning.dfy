/** The bounded, server-owned replan of an objective (objective-replanning.ts:142-244). */
module Replanning {
  import opened Options
  import opened Strings
  import opened ObjectivePaths
  import opened ClaimPlan

  datatype ReadStatus = ReadComplete | ReadTargeted | ReadCached | ReadTruncated | ReadFailed
  datatype TargetReason = MissingRequiredPath | MissingClaimPath | MissingEdgeCallerPath

  const MAX_TARGETS: nat := 8
  const DEFAULT_TARGETS: int := 2

  datatype Status = Status(path: string, status: ReadStatus)

  /** `maxTargets` is the floor of the option; None when it is absent. */
  datatype Input = Input(
    objective: Objective, retained: seq<string>, statuses: seq<Status>, priors: seq<PriorClaim>, maxTargets: Option<int>)

  datatype TargetView = TargetView(path: string, reason: TargetReason, claimIds: seq<string>, edgeKeys: seq<string>)

  /** One call of the source's `add`, its path normalized; "" stands for an absent claim or edge. */
  datatype Request = Request(path: string, reason: TargetReason, claimId: string, edgeKey: string)

  function Cap(maxTargets: Option<int>): (r: nat)
    ensures r <= MAX_TARGETS
    ensures maxTargets.None? ==> r == DEFAULT_TARGETS
    ensures maxTargets.Some? && 0 <= maxTargets.value <= MAX_TARGETS ==> r == maxTargets.value
    ensures maxTargets.Some? && maxTargets.value < 0 ==> r == 0
  {
    var n := if maxTargets.Some? then maxTargets.value else DEFAULT_TARGETS;
    if n < 0 then 0 else if n > MAX_TARGETS then MAX_TARGETS else n
  }

  /** The statuses under the normalized spelling of their paths. */
  function Respell(s: Status): Status { Status(Normalize(s.path), s.status) }

  function Respelled(statuses: seq<Status>): seq<Status> { Mapped(statuses, Respell) }

  function LastStatus(statuses: seq<Status>, path: string): Option<ReadStatus> {
    if statuses == [] then None
    else if statuses[|statuses| - 1].path == path then Some(statuses[|statuses| - 1].status)
    else LastStatus(statuses[..|statuses| - 1], path)
  }

  /** The last status recorded under any spelling of the path. */
  function StatusOf(statuses: seq<Status>, path: string): Option<ReadStatus> {
    if path == "" then None else LastStatus(Respelled(statuses), path)
  }

  predicate IsCompletePath(input: Input, path: string) {
    var status := StatusOf(input.statuses, path);
    path in PathSet(input.retained) && status != Some(ReadTruncated) && status != Some(ReadFailed)
  }

  function CompleteOf(input: Input, paths: seq<string>): (r: seq<string>)
    ensures forall p :: p in r <==> p in paths && IsCompletePath(input, p)
  {
    if paths == [] then []
    else
      var rest := CompleteOf(input, paths[1..]);
      assert paths == [paths[0]] + paths[1..];
      if IsCompletePath(input, paths[0]) then [paths[0]] + rest else rest
  }

  function PlanOf(input: Input): Plan {
    BuildObjectiveClaimPlan(input.objective, CompleteOf(input, DistinctPaths(input.retained)), input.priors)
  }

  /** One past the last "#" of an endpoint, 0 when there is none. */
  function AfterHash(s: string): (r: nat)
    ensures r <= |s|
  {
    if s == "" then 0 else if s[|s| - 1] == '#' then |s| else AfterHash(s[..|s| - 1])
  }

  function PathFromEndpoint(endpoint: string): string {
    var after := AfterHash(endpoint);
    if after > 1 then Normalize(endpoint[..after - 1]) else ""
  }

  // ---- The requests, in the order the source makes them ----

  function PathRequests(paths: seq<string>, reason: TargetReason, claimId: string): seq<Request> {
    seq(|paths|, i requires 0 <= i < |paths| => Request(Normalize(paths[i]), reason, claimId, ""))
  }

  function RequestsOfClaim(claim: PlannedClaim): seq<Request> {
    PathRequests(claim.missing, MissingClaimPath, claim.claimId)
  }

  function EdgeKeyOf(e: EvidenceEdge): string { e.from + "->" + e.to }

  function RequestsOfEdge(e: EvidenceEdge): seq<Request> {
    var caller := PathFromEndpoint(e.from);
    if caller == "" then [] else [Request(Normalize(caller), MissingEdgeCallerPath, "", EdgeKeyOf(e))]
  }

  function ClaimRequests(claims: seq<PlannedClaim>): seq<Request> { Flat(claims, RequestsOfClaim) }

  function EdgeRequests(edges: seq<EvidenceEdge>): seq<Request> { Flat(edges, RequestsOfEdge) }

  function PlanRequests(plan: Plan, edges: seq<EvidenceEdge>): seq<Request> {
    PathRequests(plan.missingObjectivePaths, MissingRequiredPath, "") + ClaimRequests(plan.claims) + EdgeRequests(edges)
  }

  function Requests(input: Input): seq<Request> { PlanRequests(PlanOf(input), input.objective.edges) }

  // ---- The targets of a list of requests ----

  predicate Open(complete: set<string>, path: string) { path != "" && path !in complete }

  /** The incomplete paths requested, with repetitions. */
  function OpenPaths(complete: set<string>, rs: seq<Request>): seq<string> {
    if rs == [] then []
    else
      var r := rs[|rs| - 1];
      OpenPaths(complete, rs[..|rs| - 1]) + (if Open(complete, r.path) then [r.path] else [])
  }

  function ClaimsNeeding(rs: seq<Request>, path: string): seq<string> {
    if rs == [] then []
    else
      var r := rs[|rs| - 1];
      ClaimsNeeding(rs[..|rs| - 1], path) + (if r.path == path && r.claimId != "" then [r.claimId] else [])
  }

  function EdgesNeeding(rs: seq<Request>, path: string): seq<string> {
    if rs == [] then []
    else
      var r := rs[|rs| - 1];
      EdgesNeeding(rs[..|rs| - 1], path) + (if r.path == path && r.edgeKey != "" then [r.edgeKey] else [])
  }

  function FirstReason(rs: seq<Request>, path: string): TargetReason {
    if rs == [] then MissingRequiredPath
    else if rs[0].path == path then rs[0].reason
    else FirstReason(rs[1..], path)
  }

  function Take(xs: seq<string>, n: nat): (r: seq<string>)
    ensures r <= xs && |r| <= n && (|xs| <= n ==> r == xs) && (|xs| >= n ==> |r| == n)
  {
    if |xs| > n then xs[..n] else xs
  }

  function TargetPaths(complete: set<string>, cap: nat, rs: seq<Request>): seq<string> {
    Take(Distinct(OpenPaths(complete, rs)), cap)
  }

  function TargetFor(rs: seq<Request>, path: string): TargetView {
    TargetView(path, FirstReason(rs, path), Distinct(ClaimsNeeding(rs, path)), Distinct(EdgesNeeding(rs, path)))
  }

  /** The specification: the first distinct incomplete paths up to the cap, each with every claim
      and every edge that needs it. */
  function TargetsOf(complete: set<string>, cap: nat, rs: seq<Request>): seq<TargetView> {
    var paths := TargetPaths(complete, cap, rs);
    seq(|paths|, i requires 0 <= i < |paths| => TargetFor(rs, paths[i]))
  }

  // ---- The mutable list ----

  class ReplanTarget {
    const path: string
    const reason: TargetReason
    var claimIds: seq<string>
    var edgeKeys: seq<string>

    constructor (path: string, reason: TargetReason, claimIds: seq<string>, edgeKeys: seq<string>)
      ensures this.path == path && this.reason == reason && this.claimIds == claimIds && this.edgeKeys == edgeKeys
    {
      this.path, this.reason, this.claimIds, this.edgeKeys := path, reason, claimIds, edgeKeys;
    }

    ghost function View(): TargetView
      reads this
    {
      TargetView(path, reason, claimIds, edgeKeys)
    }
  }

  function Included(xs: seq<string>, x: string): seq<string> { if x == "" || x in xs then xs else xs + [x] }

  /** Position of the target for a path. */
  function Holding(view: seq<TargetView>, path: string): (r: Option<nat>)
    ensures r.Some? ==> r.value < |view| && view[r.value].path == path
    ensures r.None? ==> forall i :: 0 <= i < |view| ==> view[i].path != path
  {
    if view == [] then None
    else if view[|view| - 1].path == path then Some(|view| - 1)
    else Holding(view[..|view| - 1], path)
  }

  /** One `add` on the list of targets as values. */
  function AddTo(complete: set<string>, cap: nat, view: seq<TargetView>, r: Request): seq<TargetView> {
    if !Open(complete, r.path) then view
    else
      var path := r.path;
      var at := Holding(view, path);
      if at.Some? then
        var v := view[at.value];
        view[at.value := v.(claimIds := Included(v.claimIds, r.claimId), edgeKeys := Included(v.edgeKeys, r.edgeKey))]
      else if |view| >= cap then view
      else view + [TargetView(path, r.reason, Included([], r.claimId), Included([], r.edgeKey))]
  }

  class Planner {
    var targets: seq<ReplanTarget>
    var byPath: map<string, ReplanTarget>

    ghost predicate Valid()
      reads this, targets
    {
      && (forall i, j :: 0 <= i < j < |targets| ==> targets[i] != targets[j] && targets[i].path != targets[j].path)
      && (forall i :: 0 <= i < |targets| ==> targets[i].path in byPath && byPath[targets[i].path] == targets[i])
      && (forall p :: p in byPath ==> byPath[p] in targets && byPath[p].path == p)
    }

    ghost function View(): seq<TargetView>
      reads this, targets
    {
      seq(|targets|, i requires 0 <= i < |targets| reads this, targets => targets[i].View())
    }

    constructor ()
      ensures Valid() && targets == [] && View() == []
    {
      targets, byPath := [], map[];
    }

    lemma HoldingIsMap(path: string)
      requires Valid()
      ensures Holding(View(), path).Some? <==> path in byPath
      ensures path in byPath ==> targets[Holding(View(), path).value] == byPath[path]
    {
      var at := Holding(View(), path);
      if at.Some? {
        assert View()[at.value].path == targets[at.value].path;
      }
      if path in byPath {
        var k :| 0 <= k < |targets| && targets[k] == byPath[path];
        assert View()[k].path == path;
      }
    }

    method Extend(target: ReplanTarget, ghost k: nat, claimId: string, edgeKey: string)
      requires Valid() && k < |targets| && targets[k] == target
      modifies target
      ensures Valid()
      ensures var v := old(View())[k];
        View() == old(View())[k := v.(claimIds := Included(v.claimIds, claimId), edgeKeys := Included(v.edgeKeys, edgeKey))]
    {
      ghost var before := View();
      if claimId != "" && claimId !in target.claimIds {
        target.claimIds := target.claimIds + [claimId];
      }
      if edgeKey != "" && edgeKey !in target.edgeKeys {
        target.edgeKeys := target.edgeKeys + [edgeKey];
      }
      assert forall i :: 0 <= i < |targets| && i != k ==> View()[i] == before[i];
    }

    method Push(target: ReplanTarget)
      requires Valid() && target !in targets && target.path !in byPath
      modifies this
      ensures Valid() && targets == old(targets) + [target]
      ensures View() == old(View()) + [target.View()]
    {
      ghost var before := View();
      targets := targets + [target];
      byPath := byPath[target.path := target];
      assert forall i :: 0 <= i < |before| ==> View()[i] == before[i];
    }

    method Append(r: Request)
      requires Valid() && r.path !in byPath
      modifies this
      ensures Valid() && |targets| == |old(targets)| + 1
      ensures targets[..|old(targets)|] == old(targets) && fresh(targets[|old(targets)|])
      ensures View() == old(View()) + [TargetView(r.path, r.reason, Included([], r.claimId), Included([], r.edgeKey))]
    {
      ghost var before := targets;
      var target := new ReplanTarget(r.path, r.reason,
                                     if r.claimId != "" then [r.claimId] else [],
                                     if r.edgeKey != "" then [r.edgeKey] else []);
      assert View() == old(View());
      assert target.View() == TargetView(r.path, r.reason, Included([], r.claimId), Included([], r.edgeKey));
      Push(target);
      assert targets[..|before|] == before && targets[|before|] == target;
    }

    /** `add` of the source: existing targets are extended in place, through the map. */
    method Add(complete: set<string>, cap: nat, rawPath: string, reason: TargetReason, claimId: string, edgeKey: string)
      requires Valid()
      modifies this, targets
      ensures Valid() && View() == AddTo(complete, cap, old(View()), Request(Normalize(rawPath), reason, claimId, edgeKey))
      ensures forall t :: t in targets ==> t in old(targets) || fresh(t)
    {
      var r := Request(Normalize(rawPath), reason, claimId, edgeKey);
      if r.path == "" || r.path in complete {
        return;
      }
      HoldingIsMap(r.path);
      if r.path in byPath {
        Extend(byPath[r.path], Holding(View(), r.path).value, r.claimId, r.edgeKey);
        return;
      }
      if |targets| >= cap {
        return;
      }
      Append(r);
    }
  }

  // ---- One `add` is one more request of the specification ----

  lemma OpenPathsSnoc(complete: set<string>, rs: seq<Request>, r: Request)
    ensures OpenPaths(complete, rs + [r]) ==
      if Open(complete, r.path) then OpenPaths(complete, rs) + [r.path] else OpenPaths(complete, rs)
  {
    assert (rs + [r])[..|rs|] == rs;
    assert OpenPaths(complete, rs) + [] == OpenPaths(complete, rs);
  }

  lemma NeedingSnoc(rs: seq<Request>, r: Request, path: string)
    ensures ClaimsNeeding(rs + [r], path) ==
      if r.path == path && r.claimId != "" then ClaimsNeeding(rs, path) + [r.claimId] else ClaimsNeeding(rs, path)
    ensures EdgesNeeding(rs + [r], path) ==
      if r.path == path && r.edgeKey != "" then EdgesNeeding(rs, path) + [r.edgeKey] else EdgesNeeding(rs, path)
  {
    assert (rs + [r])[..|rs|] == rs;
    assert ClaimsNeeding(rs, path) + [] == ClaimsNeeding(rs, path);
    assert EdgesNeeding(rs, path) + [] == EdgesNeeding(rs, path);
  }

  lemma {:induction false} FirstReasonSnoc(rs: seq<Request>, r: Request, path: string)
    ensures Requested(rs, path) ==> FirstReason(rs + [r], path) == FirstReason(rs, path)
    ensures !Requested(rs, path) && r.path == path ==> FirstReason(rs + [r], path) == r.reason
  {
    var all := rs + [r];
    if rs != [] {
      assert all[1..] == rs[1..] + [r];
      FirstReasonSnoc(rs[1..], r, path);
      if Requested(rs, path) && rs[0].path != path {
        var i :| 0 <= i < |rs| && rs[i].path == path;
        assert rs[1..][i - 1] == rs[i];
      }
    }
  }

  predicate Requested(rs: seq<Request>, path: string) {
    exists i :: 0 <= i < |rs| && rs[i].path == path
  }

  lemma {:induction false} OpenPathsFacts(complete: set<string>, rs: seq<Request>)
    ensures forall p :: p in OpenPaths(complete, rs) <==> Open(complete, p) && Requested(rs, p)
  {
    if rs != [] {
      var r, rest := rs[|rs| - 1], rs[..|rs| - 1];
      OpenPathsFacts(complete, rest);
      forall p: string ensures Requested(rs, p) <==> Requested(rest, p) || r.path == p {
        RequestedSnoc(rest, r, p);
        assert rest + [r] == rs;
      }
    }
  }

  lemma RequestedSnoc(rs: seq<Request>, r: Request, path: string)
    ensures Requested(rs + [r], path) <==> Requested(rs, path) || r.path == path
  {
    var all := rs + [r];
    if Requested(rs, path) {
      var i :| 0 <= i < |rs| && rs[i].path == path;
      assert all[i] == rs[i];
    }
    assert all[|rs|] == r;
  }

  lemma {:induction false} NotRequested(rs: seq<Request>, path: string)
    requires !Requested(rs, path)
    ensures ClaimsNeeding(rs, path) == [] && EdgesNeeding(rs, path) == []
  {
    if rs != [] {
      var rest := rs[..|rs| - 1];
      RequestedSnoc(rest, rs[|rs| - 1], path);
      assert rest + [rs[|rs| - 1]] == rs;
      NotRequested(rest, path);
    }
  }

  lemma IncludedIsDistinct(xs: seq<string>, x: string)
    requires x != ""
    ensures Distinct(xs + [x]) == Included(Distinct(xs), x)
  {
    DistinctSnoc(xs, x);
    DistinctFacts(xs);
  }

  /** A target that is already requested is extended by the new request's claim and edge. */
  lemma TargetExtended(rs: seq<Request>, r: Request)
    requires Requested(rs, r.path)
    ensures var path := r.path;
      var v := TargetFor(rs, path);
      TargetFor(rs + [r], path) == v.(claimIds := Included(v.claimIds, r.claimId), edgeKeys := Included(v.edgeKeys, r.edgeKey))
  {
    var path := r.path;
    NeedingSnoc(rs, r, path);
    FirstReasonSnoc(rs, r, path);
    if r.claimId != "" { IncludedIsDistinct(ClaimsNeeding(rs, path), r.claimId); }
    if r.edgeKey != "" { IncludedIsDistinct(EdgesNeeding(rs, path), r.edgeKey); }
  }

  lemma TargetFresh(rs: seq<Request>, r: Request)
    requires !Requested(rs, r.path)
    ensures TargetFor(rs + [r], r.path)
         == TargetView(r.path, r.reason, Included([], r.claimId), Included([], r.edgeKey))
  {
    var path := r.path;
    NeedingSnoc(rs, r, path);
    FirstReasonSnoc(rs, r, path);
    NotRequested(rs, path);
    assert Distinct<string>([]) == [];
    if r.claimId != "" { IncludedIsDistinct([], r.claimId); }
    if r.edgeKey != "" { IncludedIsDistinct([], r.edgeKey); }
  }

  lemma TargetOther(rs: seq<Request>, r: Request, path: string)
    requires r.path != path && Requested(rs, path)
    ensures TargetFor(rs + [r], path) == TargetFor(rs, path)
  {
    NeedingSnoc(rs, r, path);
    FirstReasonSnoc(rs, r, path);
  }

  /** Paths of the targets: distinct, open and requested. */
  lemma TargetPathsFacts(complete: set<string>, cap: nat, rs: seq<Request>)
    ensures var ps := TargetPaths(complete, cap, rs);
      && (forall i :: 0 <= i < |ps| ==> Open(complete, ps[i]) && Requested(rs, ps[i]))
      && (forall i, j :: 0 <= i < j < |ps| ==> ps[i] != ps[j])
      && |ps| <= cap
      && (|ps| < cap ==> forall p :: Open(complete, p) && Requested(rs, p) ==> p in ps)
  {
    var all := OpenPaths(complete, rs);
    OpenPathsFacts(complete, rs);
    DistinctFacts(all);
    var d := Distinct(all);
    assert forall i :: 0 <= i < |d| ==> d[i] in d;
  }

  lemma {:induction false} HoldingTarget(complete: set<string>, cap: nat, rs: seq<Request>, path: string)
    ensures var at := Holding(TargetsOf(complete, cap, rs), path);
      && (at.Some? <==> path in TargetPaths(complete, cap, rs))
      && (at.Some? ==> TargetPaths(complete, cap, rs)[at.value] == path)
  {
    var ps, view := TargetPaths(complete, cap, rs), TargetsOf(complete, cap, rs);
    assert forall i :: 0 <= i < |ps| ==> view[i].path == ps[i];
  }

  lemma {:induction false} TargetPathsSnoc(complete: set<string>, cap: nat, rs: seq<Request>, r: Request)
    ensures var ps, path := TargetPaths(complete, cap, rs), r.path;
      TargetPaths(complete, cap, rs + [r]) ==
        if Open(complete, r.path) && !Requested(rs, path) && |ps| < cap then ps + [path] else ps
  {
    var all := OpenPaths(complete, rs);
    OpenPathsSnoc(complete, rs, r);
    OpenPathsFacts(complete, rs);
    if Open(complete, r.path) {
      DistinctSnoc(all, r.path);
    }
  }

  lemma {:induction false} TargetOfMore(rs: seq<Request>, r: Request, path: string)
    requires Requested(rs, path)
    ensures TargetFor(rs + [r], path) == if path == r.path then ExtendedBy(TargetFor(rs, path), r) else TargetFor(rs, path)
  {
    if path == r.path {
      TargetExtended(rs, r);
    } else {
      TargetOther(rs, r, path);
    }
  }

  function ExtendedBy(v: TargetView, r: Request): TargetView {
    v.(claimIds := Included(v.claimIds, r.claimId), edgeKeys := Included(v.edgeKeys, r.edgeKey))
  }

  lemma {:induction false} PointUpdate<T>(was: seq<T>, next: seq<T>, k: nat, x: T)
    requires k < |was| == |next| && next[k] == x && forall i :: 0 <= i < |was| && i != k ==> next[i] == was[i]
    ensures was[k := x] == next
  {
  }

  /** One target is extended and the others stay, when the paths of the targets stay. */
  lemma {:induction false} OneExtended(ps: seq<string>, view: seq<TargetView>, next: seq<TargetView>, rs: seq<Request>, r: Request, k: nat)
    requires |view| == |next| == |ps| && k < |ps| && ps[k] == r.path
    requires forall i :: 0 <= i < |ps| ==> view[i] == TargetFor(rs, ps[i]) && next[i] == TargetFor(rs + [r], ps[i])
    requires forall i :: 0 <= i < |ps| ==> Requested(rs, ps[i]) && (i != k ==> ps[i] != r.path)
    ensures view[k := ExtendedBy(view[k], r)] == next
  {
    forall i | 0 <= i < |ps| ensures next[i] == if i == k then ExtendedBy(view[i], r) else view[i] {
      TargetOfMore(rs, r, ps[i]);
    }
    PointUpdate(view, next, k, ExtendedBy(view[k], r));
  }

  lemma {:induction false} AddExtends(complete: set<string>, cap: nat, rs: seq<Request>, r: Request)
    requires r.path in TargetPaths(complete, cap, rs)
    ensures AddTo(complete, cap, TargetsOf(complete, cap, rs), r) == TargetsOf(complete, cap, rs + [r])
  {
    var ps, view := TargetPaths(complete, cap, rs), TargetsOf(complete, cap, rs);
    TargetPathsFacts(complete, cap, rs);
    TargetPathsSnoc(complete, cap, rs, r);
    HoldingTarget(complete, cap, rs, r.path);
    var k := Holding(view, r.path).value;
    SameAt(ps, k, r.path);
    OneExtended(ps, view, TargetsOf(complete, cap, rs + [r]), rs, r, k);
  }

  lemma {:induction false} AddElsewhere(complete: set<string>, cap: nat, rs: seq<Request>, r: Request)
    requires r.path !in TargetPaths(complete, cap, rs)
    ensures AddTo(complete, cap, TargetsOf(complete, cap, rs), r) == TargetsOf(complete, cap, rs + [r])
  {
    var ps := TargetPaths(complete, cap, rs);
    var view, next := TargetsOf(complete, cap, rs), TargetsOf(complete, cap, rs + [r]);
    TargetPathsFacts(complete, cap, rs);
    TargetPathsSnoc(complete, cap, rs, r);
    HoldingTarget(complete, cap, rs, r.path);
    forall i | 0 <= i < |ps| ensures next[i] == view[i] {
      assert ps[i] in ps;
      TargetOther(rs, r, ps[i]);
    }
    if Open(complete, r.path) && |ps| < cap {
      TargetFresh(rs, r);
      assert next == view + [TargetFor(rs + [r], r.path)];
    } else {
      assert next == view;
    }
  }

  lemma AddIsOneMore(complete: set<string>, cap: nat, rs: seq<Request>, r: Request)
    ensures AddTo(complete, cap, TargetsOf(complete, cap, rs), r) == TargetsOf(complete, cap, rs + [r])
  {
    if r.path in TargetPaths(complete, cap, rs) {
      AddExtends(complete, cap, rs, r);
    } else {
      AddElsewhere(complete, cap, rs, r);
    }
  }

  lemma SameAt(ps: seq<string>, k: nat, path: string)
    requires k < |ps| && ps[k] == path && forall i, j :: 0 <= i < j < |ps| ==> ps[i] != ps[j]
    ensures forall i :: 0 <= i < |ps| && ps[i] == path ==> i == k
  {
  }

  // ---- The replan ----

  function CompleteSet(input: Input): set<string> {
    set p | p in PathSet(input.retained) && IsCompletePath(input, p)
  }

  /** The replan as values. */
  function Replan(input: Input): seq<TargetView> {
    TargetsOf(CompleteSet(input), Cap(input.maxTargets), Requests(input))
  }

  method AddOne(planner: Planner, complete: set<string>, cap: nat, path: string, reason: TargetReason,
                claimId: string, edgeKey: string, ghost before: seq<Request>)
    requires planner.Valid() && planner.View() == TargetsOf(complete, cap, before)
    modifies planner, planner.targets
    ensures planner.Valid()
    ensures planner.View() == TargetsOf(complete, cap, before + [Request(Normalize(path), reason, claimId, edgeKey)])
    ensures forall t :: t in planner.targets ==> t in old(planner.targets) || fresh(t)
  {
    AddIsOneMore(complete, cap, before, Request(Normalize(path), reason, claimId, edgeKey));
    planner.Add(complete, cap, path, reason, claimId, edgeKey);
  }

  lemma {:induction false} PathRequestAt(paths: seq<string>, k: nat, reason: TargetReason, claimId: string)
    requires k < |paths|
    ensures |PathRequests(paths, reason, claimId)| == |paths|
    ensures PathRequests(paths, reason, claimId)[k] == Request(Normalize(paths[k]), reason, claimId, "")
  {
  }

  lemma {:induction false} Appended<T>(before: seq<T>, xs: seq<T>, x: T, all: seq<T>)
    requires |all| == |xs| + 1 && all[|xs|] == x && forall k :: 0 <= k < |xs| ==> all[k] == xs[k]
    ensures before + xs + [x] == before + all
  {
    assert all == xs + [x];
    assert before + (xs + [x]) == before + xs + [x];
  }

  lemma {:induction false} PathRequestsSnoc(before: seq<Request>, paths: seq<string>, i: nat, reason: TargetReason, claimId: string)
    requires i < |paths|
    ensures before + PathRequests(paths[..i], reason, claimId) + [Request(Normalize(paths[i]), reason, claimId, "")]
         == before + PathRequests(paths[..i + 1], reason, claimId)
  {
    var xs, all := PathRequests(paths[..i], reason, claimId), PathRequests(paths[..i + 1], reason, claimId);
    forall k | 0 <= k < i ensures all[k] == xs[k] {
      PathRequestAt(paths[..i], k, reason, claimId);
      PathRequestAt(paths[..i + 1], k, reason, claimId);
    }
    PathRequestAt(paths[..i + 1], i, reason, claimId);
    Appended(before, xs, Request(Normalize(paths[i]), reason, claimId, ""), all);
  }

  method AddPaths(planner: Planner, complete: set<string>, cap: nat, paths: seq<string>, reason: TargetReason,
                  claimId: string, ghost before: seq<Request>)
    requires planner.Valid() && planner.View() == TargetsOf(complete, cap, before)
    modifies planner, planner.targets
    ensures planner.Valid() && planner.View() == TargetsOf(complete, cap, before + PathRequests(paths, reason, claimId))
    ensures forall t :: t in planner.targets ==> t in old(planner.targets) || fresh(t)
  {
    assert before + PathRequests(paths[..0], reason, claimId) == before;
    for i := 0 to |paths|
      invariant planner.Valid() && planner.View() == TargetsOf(complete, cap, before + PathRequests(paths[..i], reason, claimId))
      invariant forall t :: t in planner.targets ==> t in old(planner.targets) || fresh(t)
    {
      AddOne(planner, complete, cap, paths[i], reason, claimId, "", before + PathRequests(paths[..i], reason, claimId));
      PathRequestsSnoc(before, paths, i, reason, claimId);
    }
    assert paths[..|paths|] == paths;
  }

  lemma ClaimRequestsSnoc(before: seq<Request>, claims: seq<PlannedClaim>, i: nat)
    requires i < |claims|
    ensures before + ClaimRequests(claims[..i]) + RequestsOfClaim(claims[i]) == before + ClaimRequests(claims[..i + 1])
  {
    FlatSnoc(claims, i, RequestsOfClaim);
  }

  method AddClaims(planner: Planner, complete: set<string>, cap: nat, claims: seq<PlannedClaim>, ghost before: seq<Request>)
    requires planner.Valid() && planner.View() == TargetsOf(complete, cap, before)
    modifies planner, planner.targets
    ensures planner.Valid() && planner.View() == TargetsOf(complete, cap, before + ClaimRequests(claims))
    ensures forall t :: t in planner.targets ==> t in old(planner.targets) || fresh(t)
  {
    assert before + ClaimRequests(claims[..0]) == before;
    for i := 0 to |claims|
      invariant planner.Valid() && planner.View() == TargetsOf(complete, cap, before + ClaimRequests(claims[..i]))
      invariant forall t :: t in planner.targets ==> t in old(planner.targets) || fresh(t)
    {
      AddPaths(planner, complete, cap, claims[i].missing, MissingClaimPath, claims[i].claimId, before + ClaimRequests(claims[..i]));
      ClaimRequestsSnoc(before, claims, i);
    }
    assert claims[..|claims|] == claims;
  }

  method AddEdge(planner: Planner, complete: set<string>, cap: nat, e: EvidenceEdge, ghost before: seq<Request>)
    requires planner.Valid() && planner.View() == TargetsOf(complete, cap, before)
    modifies planner, planner.targets
    ensures planner.Valid() && planner.View() == TargetsOf(complete, cap, before + RequestsOfEdge(e))
    ensures forall t :: t in planner.targets ==> t in old(planner.targets) || fresh(t)
  {
    var caller := PathFromEndpoint(e.from);
    if caller == "" {
      assert before + [] == before;
      return;
    }
    AddOne(planner, complete, cap, caller, MissingEdgeCallerPath, "", EdgeKeyOf(e), before);
  }

  lemma EdgeRequestsSnoc(before: seq<Request>, edges: seq<EvidenceEdge>, i: nat)
    requires i < |edges|
    ensures before + EdgeRequests(edges[..i]) + RequestsOfEdge(edges[i]) == before + EdgeRequests(edges[..i + 1])
  {
    FlatSnoc(edges, i, RequestsOfEdge);
  }

  method AddEdges(planner: Planner, complete: set<string>, cap: nat, edges: seq<EvidenceEdge>, ghost before: seq<Request>)
    requires planner.Valid() && planner.View() == TargetsOf(complete, cap, before)
    modifies planner, planner.targets
    ensures planner.Valid() && planner.View() == TargetsOf(complete, cap, before + EdgeRequests(edges))
    ensures forall t :: t in planner.targets ==> t in old(planner.targets) || fresh(t)
  {
    assert before + EdgeRequests(edges[..0]) == before;
    for i := 0 to |edges|
      invariant planner.Valid() && planner.View() == TargetsOf(complete, cap, before + EdgeRequests(edges[..i]))
      invariant forall t :: t in planner.targets ==> t in old(planner.targets) || fresh(t)
    {
      AddEdge(planner, complete, cap, edges[i], before + EdgeRequests(edges[..i]));
      EdgeRequestsSnoc(before, edges, i);
    }
    assert edges[..|edges|] == edges;
  }

  lemma NoTargetsYet(complete: set<string>, cap: nat)
    ensures TargetsOf(complete, cap, []) == []
  {
  }

  method AddAll(planner: Planner, complete: set<string>, cap: nat, plan: Plan, edges: seq<EvidenceEdge>)
    requires planner.Valid() && planner.View() == TargetsOf(complete, cap, [])
    modifies planner, planner.targets
    ensures planner.Valid() && planner.View() == TargetsOf(complete, cap, PlanRequests(plan, edges))
  {
    ghost var first := PathRequests(plan.missingObjectivePaths, MissingRequiredPath, "");
    AddPaths(planner, complete, cap, plan.missingObjectivePaths, MissingRequiredPath, "", []);
    assert [] + first == first;
    AddClaims(planner, complete, cap, plan.claims, first);
    AddEdges(planner, complete, cap, edges, first + ClaimRequests(plan.claims));
  }

  /** The targets of the replan, built in place, are the specification's. */
  method DeriveObjectiveReplanTargets(input: Input) returns (planner: Planner)
    ensures fresh(planner) && planner.Valid() && planner.View() == Replan(input)
  {
    planner := new Planner();
    NoTargetsYet(CompleteSet(input), Cap(input.maxTargets));
    AddAll(planner, CompleteSet(input), Cap(input.maxTargets), PlanOf(input), input.objective.edges);
  }
}
