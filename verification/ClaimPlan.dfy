/** Claim-level coverage of an objective, projected from the retained paths (objective-claim-plan.ts:36-105). */
module ClaimPlan {
  import opened Options
  import opened Strings
  import opened ObjectivePaths

  datatype ObjectiveClaim = ObjectiveClaim(claimId: string, requiredPaths: seq<string>)
  datatype EvidenceEdge = EvidenceEdge(from: string, to: string)
  datatype Objective = Objective(requiredPaths: seq<string>, claims: seq<ObjectiveClaim>, edges: seq<EvidenceEdge>)

  /** A claim state restored from an earlier turn. */
  datatype PriorClaim = PriorClaim(claimId: string, proven: bool, evidenceRefs: seq<string>)

  datatype PlannedClaim = PlannedClaim(claimId: string, required: seq<string>, missing: seq<string>, closed: bool)
  datatype Plan = Plan(missingObjectivePaths: seq<string>, claims: seq<PlannedClaim>)

  /** `p` is what some raw path stands for. */
  predicate NamedBy(p: string, raw: seq<string>) { p != "" && exists i :: 0 <= i < |raw| && Normalize(raw[i]) == p }

  lemma NamedByCons(p: string, raw: seq<string>)
    requires raw != []
    ensures NamedBy(p, raw) <==> (p != "" && Normalize(raw[0]) == p) || NamedBy(p, raw[1..])
  {
    if NamedBy(p, raw[1..]) {
      var i :| 0 <= i < |raw| - 1 && Normalize(raw[1..][i]) == p;
      assert raw[i + 1] == raw[1..][i];
    }
    if NamedBy(p, raw) {
      var i :| 0 <= i < |raw| && Normalize(raw[i]) == p;
      assert i > 0 ==> raw[1..][i - 1] == raw[i];
    }
  }

  /** Normalized paths, invalid ones dropped, in order. */
  function NormalizeAll(raw: seq<string>): seq<string> {
    if raw == [] then []
    else (if Normalize(raw[0]) == "" then [] else [Normalize(raw[0])]) + NormalizeAll(raw[1..])
  }

  predicate Accepted(path: string) { Normalize(path) != "" }

  /** What is listed is what is named, in the order and as often as it is named. */
  lemma {:induction false} NormalizeAllFacts(raw: seq<string>)
    ensures forall p :: p in NormalizeAll(raw) <==> NamedBy(p, raw)
    ensures exists ks :: Filtered(raw, Accepted, Normalize, NormalizeAll(raw), ks)
  {
    if raw == [] {
      assert Filtered(raw, Accepted, Normalize, NormalizeAll(raw), []);
    } else {
      NormalizeAllFacts(raw[1..]);
      var later :| Filtered(raw[1..], Accepted, Normalize, NormalizeAll(raw[1..]), later);
      var ks := FilteredCons(raw, Accepted, Normalize, NormalizeAll(raw[1..]), later);
      assert NormalizeAll(raw) == if Accepted(raw[0]) then [Normalize(raw[0])] + NormalizeAll(raw[1..]) else NormalizeAll(raw[1..]);
      forall p: string ensures p in NormalizeAll(raw) <==> NamedBy(p, raw) {
        NamedByCons(p, raw);
      }
    }
  }

  function DistinctPaths(raw: seq<string>): seq<string> { Distinct(NormalizeAll(raw)) }

  function PathSet(raw: seq<string>): set<string> { set p | p in NormalizeAll(raw) }

  function Missing(paths: seq<string>, retained: set<string>): (r: seq<string>)
    ensures forall p :: p in r <==> p in paths && p !in retained
  {
    if paths == [] then []
    else
      var rest := Missing(paths[1..], retained);
      assert paths == [paths[0]] + paths[1..];
      if paths[0] in retained then rest else [paths[0]] + rest
  }

  function Same(path: string): string { path }

  /** The missing paths keep their order and multiplicity. */
  lemma {:induction false} MissingInOrder(paths: seq<string>, retained: set<string>, open: string -> bool) returns (ks: seq<nat>)
    requires forall p :: open(p) <==> p !in retained
    ensures Filtered(paths, open, Same, Missing(paths, retained), ks)
  {
    if paths == [] {
      ks := [];
    } else {
      ks := MissingInOrder(paths[1..], retained, open);
      ks := FilteredCons(paths, open, Same, Missing(paths[1..], retained), ks);
    }
  }

  /** The last restored state of a claim wins. */
  function Restored(priors: seq<PriorClaim>, id: string): Option<PriorClaim> {
    if priors == [] then None
    else if priors[|priors| - 1].claimId == id then Some(priors[|priors| - 1])
    else Restored(priors[..|priors| - 1], id)
  }

  /** Every evidence reference of an earlier proof is a valid, retained path. */
  predicate PriorProofRetained(prior: Option<PriorClaim>, retained: set<string>) {
    && prior.Some? && prior.value.proven && prior.value.evidenceRefs != []
    && forall i :: 0 <= i < |prior.value.evidenceRefs| ==>
         Normalize(prior.value.evidenceRefs[i]) != "" && Normalize(prior.value.evidenceRefs[i]) in retained
  }

  function PlanClaim(claim: ObjectiveClaim, retained: set<string>, priors: seq<PriorClaim>): PlannedClaim {
    var required := DistinctPaths(claim.requiredPaths);
    var missing :=
      if PriorProofRetained(Restored(priors, claim.claimId), retained) then [] else Missing(required, retained);
    PlannedClaim(claim.claimId, required, missing, required != [] && missing == [])
  }

  function BuildObjectiveClaimPlan(o: Objective, retainedPaths: seq<string>, priors: seq<PriorClaim>): Plan {
    var retained := PathSet(retainedPaths);
    Plan(Missing(DistinctPaths(o.requiredPaths), retained),
         seq(|o.claims|, i requires 0 <= i < |o.claims| => PlanClaim(o.claims[i], retained, priors)))
  }
}
