/** The claim validator, the binding of claims to evidence, and the guard of the final judgment
    (evidence-integrity.ts:768-790, 794-885, 898-928). */
module EvidenceClaims {
  import opened Options
  import opened EvidenceRecords

  /** `relevant` stands for the evidence relevance gate, consulted for claims with a category. */
  datatype ValidationOptions = ValidationOptions(
    runId: string, allowTestSources: bool, relevant: (ClaimRecord, EvidenceRecord) -> bool)

  datatype Failure =
    | ContextOnlyFailure | DifferentRun | CachedFailure | TestFailure | ScopeFailure | SymbolFailure | RelevanceFailure

  datatype Reason =
    | NoEvidenceIds
    | NoRecords
    | RecordFails(evidenceId: string, failure: Failure)
    | CannotProve(evidenceId: string)

  datatype ClaimValidation = ClaimValidation(claimId: string, result: ClaimResult, reasons: seq<Reason>)

  const MAX_REASONS: nat := 6

  /** The record is one of those the claim declares. */
  predicate Declared(claim: ClaimRecord, r: EvidenceRecord) { r.evidenceId in claim.evidenceIds }

  /** What a record must be to prove a claim. */
  predicate Proves(claim: ClaimRecord, r: EvidenceRecord, opts: ValidationOptions) {
    && r.strength != ContextOnly
    && r.runId == opts.runId
    && !(r.readType == ReadCached && Truthy(r.originRunId))
    && (opts.allowTestSources || r.sourceType != TestSource)
    && (claim.scope.Some? ==> EvidenceScopeSupportsClaimScope(r.sourceScope, claim.scope.value))
    && !(Truthy(claim.symbol) && Truthy(r.symbol) && r.symbol != claim.symbol)
    && (claim.category.Some? ==> opts.relevant(claim, r))
  }

  function Bound(claim: ClaimRecord, records: seq<EvidenceRecord>): (b: seq<EvidenceRecord>)
    ensures forall r :: r in b <==> r in records && Declared(claim, r)
  {
    Select(records, r => Declared(claim, r))
  }

  function Proving(claim: ClaimRecord, bound: seq<EvidenceRecord>, opts: ValidationOptions): (b: seq<EvidenceRecord>)
    ensures forall r :: r in b <==> r in bound && Proves(claim, r, opts)
  {
    Select(bound, r => Proves(claim, r, opts))
  }

  function Note(c: bool, r: EvidenceRecord, f: Failure): seq<Reason> { if c then [RecordFails(r.evidenceId, f)] else [] }

  /** Every check a record fails, in the order of the checks. */
  function FailuresOf(claim: ClaimRecord, r: EvidenceRecord, opts: ValidationOptions): seq<Reason> {
    Note(r.strength == ContextOnly, r, ContextOnlyFailure)
    + Note(r.runId != opts.runId, r, DifferentRun)
    + Note(r.readType == ReadCached && Truthy(r.originRunId), r, CachedFailure)
    + Note(!opts.allowTestSources && r.sourceType == TestSource, r, TestFailure)
    + Note(claim.scope.Some? && !EvidenceScopeSupportsClaimScope(r.sourceScope, claim.scope.value), r, ScopeFailure)
    + Note(Truthy(claim.symbol) && Truthy(r.symbol) && r.symbol != claim.symbol, r, SymbolFailure)
    + Note(claim.category.Some? && !opts.relevant(claim, r), r, RelevanceFailure)
  }

  lemma FailsIff(claim: ClaimRecord, r: EvidenceRecord, opts: ValidationOptions)
    ensures FailuresOf(claim, r, opts) == [] <==> Proves(claim, r, opts)
  {
  }

  function AllFailures(claim: ClaimRecord, bound: seq<EvidenceRecord>, opts: ValidationOptions): seq<Reason> {
    if bound == [] then []
    else AllFailures(claim, bound[..|bound| - 1], opts) + FailuresOf(claim, bound[|bound| - 1], opts)
  }

  lemma {:induction false} FailureOfMember(claim: ClaimRecord, bound: seq<EvidenceRecord>, opts: ValidationOptions, r: EvidenceRecord)
    requires r in bound && !Proves(claim, r, opts)
    ensures AllFailures(claim, bound, opts) != []
  {
    var m := |bound| - 1;
    if r == bound[m] {
      FailsIff(claim, r, opts);
    } else {
      FailureOfMember(claim, bound[..m], opts, r);
    }
  }

  function FirstReasons(reasons: seq<Reason>): seq<Reason> { if |reasons| > MAX_REASONS then reasons[..MAX_REASONS] else reasons }

  /** A record of the run that proves the claim. */
  ghost predicate HasWitness(claim: ClaimRecord, records: seq<EvidenceRecord>, opts: ValidationOptions) {
    exists r :: r in records && Declared(claim, r) && Proves(claim, r, opts)
  }

  ghost predicate HasDeclared(claim: ClaimRecord, records: seq<EvidenceRecord>) {
    exists r :: r in records && Declared(claim, r)
  }

  ghost predicate IsValidation(v: ClaimValidation, claim: ClaimRecord, records: seq<EvidenceRecord>, opts: ValidationOptions) {
    && v.claimId == claim.claimId
    && (v.result == Proven <==> HasWitness(claim, records, opts))
    && (v.result == Rejected <==> !HasDeclared(claim, records))
    && (v.reasons == [] <==> v.result == Proven) && |v.reasons| <= MAX_REASONS
    && (v.result == NotProven ==> v.reasons == FirstReasons(AllFailures(claim, Bound(claim, records), opts)))
  }

  /** A claim is proven exactly when some declared record proves it, rejected exactly when it
      declares no record at all, and every other verdict names the failed checks. */
  method ValidateClaim(claim: ClaimRecord, records: seq<EvidenceRecord>, opts: ValidationOptions) returns (v: ClaimValidation)
    ensures IsValidation(v, claim, records, opts)
  {
    if |claim.evidenceIds| == 0 {
      return ClaimValidation(claim.claimId, Rejected, [NoEvidenceIds]);
    }
    var bound := Bound(claim, records);
    if |bound| == 0 {
      NothingDeclared(claim, records);
      return ClaimValidation(claim.claimId, Rejected, [NoRecords]);
    }
    assert bound[0] in bound;
    var failures := [];
    for i := 0 to |bound|
      invariant failures == AllFailures(claim, bound[..i], opts)
    {
      failures := failures + FailuresOf(claim, bound[i], opts);
      assert bound[..i + 1][..i] == bound[..i];
    }
    assert bound[..|bound|] == bound;
    var proving := Proving(claim, bound, opts);
    var fallback := seq(|bound|, i requires 0 <= i < |bound| => CannotProve(bound[i].evidenceId));
    if |proving| == 0 {
      var reasons := if |failures| > 0 then failures else fallback;
      NothingProves(claim, records, opts);
      return ClaimValidation(claim.claimId, NotProven, FirstReasons(reasons));
    }
    assert proving[0] in proving;
    return ClaimValidation(claim.claimId, Proven, []);
  }

  lemma NothingDeclared(claim: ClaimRecord, records: seq<EvidenceRecord>)
    requires Bound(claim, records) == []
    ensures !HasDeclared(claim, records)
  {
    forall r | r in records && Declared(claim, r) ensures r in Bound(claim, records) {}
  }

  /** The fallback reason of the source is never needed: a record that does not prove the claim
      has failed a check. */
  lemma NothingProves(claim: ClaimRecord, records: seq<EvidenceRecord>, opts: ValidationOptions)
    requires Bound(claim, records) != [] && Proving(claim, Bound(claim, records), opts) == []
    ensures !HasWitness(claim, records, opts) && AllFailures(claim, Bound(claim, records), opts) != []
  {
    var bound := Bound(claim, records);
    assert bound[0] in bound && bound[0] !in Proving(claim, bound, opts);
    FailureOfMember(claim, bound, opts, bound[0]);
  }

  // ---- The final guard ----

  function BindClaimToEvidence(claim: ClaimRecord, records: seq<EvidenceRecord>): (b: Option<Binding>)
    ensures b.None? <==> forall r :: r in records ==> !Declared(claim, r)
    ensures b.Some? ==> b.value.claimId == claim.claimId && |b.value.sourceSpans| == |b.value.evidenceIds| > 0
  {
    var bound := Bound(claim, records);
    assert bound != [] ==> bound[0] in bound;
    if bound == [] then None
    else Some(Binding(
      claim.claimId,
      seq(|bound|, i requires 0 <= i < |bound| => bound[i].evidenceId),
      seq(|bound|, i requires 0 <= i < |bound| => SourceSpan(bound[i].file, bound[i].span))))
  }

  predicate HasRecord(records: seq<EvidenceRecord>, id: string) { exists r :: r in records && r.evidenceId == id }

  /** A binding names exactly the declared ids that have a record. */
  lemma BindingNamesRecords(claim: ClaimRecord, records: seq<EvidenceRecord>, id: string)
    requires BindClaimToEvidence(claim, records).Some?
    ensures id in BindClaimToEvidence(claim, records).value.evidenceIds <==> id in claim.evidenceIds && HasRecord(records, id)
  {
    var bound, ids := Bound(claim, records), BindClaimToEvidence(claim, records).value.evidenceIds;
    if id in ids {
      var i :| 0 <= i < |ids| && ids[i] == id;
      assert bound[i] in bound;
    }
    if r :| r in records && r.evidenceId == id && id in claim.evidenceIds {
      assert r in bound;
      var i :| 0 <= i < |bound| && bound[i] == r;
      assert ids[i] == id;
    }
  }

  datatype Denial = NoClaims | NoDecision(claimId: string) | NotProvenClaim(claimId: string) | NoBinding(claimId: string) | NoSpans(claimId: string)
  datatype Guard = Allowed | Denied(why: Denial)

  /** Position of the first decision for this claim id. */
  function FirstDecision(validations: seq<ClaimValidation>, id: string): (r: Option<nat>)
    ensures r.Some? ==>
      && r.value < |validations| && validations[r.value].claimId == id
      && forall i :: 0 <= i < r.value ==> validations[i].claimId != id
    ensures r.None? ==> forall i :: 0 <= i < |validations| ==> validations[i].claimId != id
  {
    if validations == [] then None
    else if validations[0].claimId == id then Some(0)
    else
      var r := FirstDecision(validations[1..], id);
      assert forall i :: 0 < i < |validations| ==> validations[i] == validations[1..][i - 1];
      if r.Some? then Some(r.value + 1) else None
  }

  /** The claim carries a usable binding, or none and then one that resolves. */
  predicate BindingResolves(claim: ClaimRecord, records: seq<EvidenceRecord>) {
    match claim.binding
    case Some(b) => b.evidenceIds != [] && b.sourceSpans != []
    case None => Bound(claim, records) != []
  }

  predicate Passes(claim: ClaimRecord, validations: seq<ClaimValidation>, records: seq<EvidenceRecord>) {
    var d := FirstDecision(validations, claim.claimId);
    d.Some? && validations[d.value].result == Proven && BindingResolves(claim, records)
  }

  /** The denial states what the claim lacks. */
  predicate Obstructs(why: Denial, claim: ClaimRecord, validations: seq<ClaimValidation>, records: seq<EvidenceRecord>) {
    var d := FirstDecision(validations, claim.claimId);
    match why
    case NoClaims => false
    case NoDecision(id) => id == claim.claimId && d.None?
    case NotProvenClaim(id) => id == claim.claimId && d.Some? && validations[d.value].result != Proven
    case NoBinding(id) => id == claim.claimId && (if claim.binding.Some? then claim.binding.value.evidenceIds == [] else Bound(claim, records) == [])
    case NoSpans(id) => id == claim.claimId && claim.binding.Some? && claim.binding.value.sourceSpans == []
  }

  /** Allows exactly when there is a claim and every claim passes; a denial names the first claim that
      does not pass, and why. */
  method GuardFinalJudgment(claims: seq<ClaimRecord>, validations: seq<ClaimValidation>, records: seq<EvidenceRecord>)
    returns (r: Guard)
    ensures r.Allowed? <==> claims != [] && forall i :: 0 <= i < |claims| ==> Passes(claims[i], validations, records)
    ensures r.Denied? ==>
      || (claims == [] && r.why == NoClaims)
      || (exists i :: 0 <= i < |claims| && Obstructs(r.why, claims[i], validations, records)
                      && forall j :: 0 <= j < i ==> Passes(claims[j], validations, records))
  {
    if |claims| == 0 {
      return Denied(NoClaims);
    }
    for i := 0 to |claims|
      invariant forall j :: 0 <= j < i ==> Passes(claims[j], validations, records)
    {
      var claim := claims[i];
      var decision := FirstDecision(validations, claim.claimId);
      if decision.None? {
        return Denied(NoDecision(claim.claimId));
      }
      if validations[decision.value].result != Proven {
        return Denied(NotProvenClaim(claim.claimId));
      }
      var binding := if claim.binding.Some? then claim.binding else BindClaimToEvidence(claim, records);
      if binding.None? || |binding.value.evidenceIds| == 0 {
        return Denied(NoBinding(claim.claimId));
      }
      if |binding.value.sourceSpans| == 0 {
        return Denied(NoSpans(claim.claimId));
      }
    }
    return Allowed;
  }

  // ---- End to end ----

  ghost predicate DistinctClaims(claims: seq<ClaimRecord>) {
    forall i, j :: 0 <= i < j < |claims| ==> claims[i].claimId != claims[j].claimId
  }

  /** The validations are those `ValidateClaim` returns for these claims on these records. */
  ghost predicate ValidatedBy(claims: seq<ClaimRecord>, validations: seq<ClaimValidation>, records: seq<EvidenceRecord>,
                              opts: ValidationOptions) {
    |validations| == |claims|
    && forall i :: 0 <= i < |claims| ==> IsValidation(validations[i], claims[i], records, opts)
  }

  lemma OwnDecision(claims: seq<ClaimRecord>, validations: seq<ClaimValidation>, records: seq<EvidenceRecord>,
                    opts: ValidationOptions, i: nat)
    requires DistinctClaims(claims) && ValidatedBy(claims, validations, records, opts) && i < |claims|
    ensures FirstDecision(validations, claims[i].claimId) == Some(i)
  {
    var d := FirstDecision(validations, claims[i].claimId);
    assert validations[i].claimId == claims[i].claimId;
    assert d.Some?;
    assert validations[d.value].claimId == claims[d.value].claimId;
  }

  /** The final guard end to end: with distinct claim ids and validations computed on the same
      records, a claim passes exactly when it has a witness record and any binding set beforehand
      is usable; without preset bindings a witness alone decides. */
  lemma GuardEndToEnd(claims: seq<ClaimRecord>, validations: seq<ClaimValidation>, records: seq<EvidenceRecord>,
                      opts: ValidationOptions)
    requires DistinctClaims(claims) && ValidatedBy(claims, validations, records, opts)
    ensures forall i :: 0 <= i < |claims| ==>
      (Passes(claims[i], validations, records) <==>
         && HasWitness(claims[i], records, opts)
         && (claims[i].binding.Some? ==> claims[i].binding.value.evidenceIds != [] && claims[i].binding.value.sourceSpans != []))
  {
    forall i | 0 <= i < |claims|
      ensures Passes(claims[i], validations, records) <==>
        && HasWitness(claims[i], records, opts)
        && (claims[i].binding.Some? ==> claims[i].binding.value.evidenceIds != [] && claims[i].binding.value.sourceSpans != [])
    {
      OwnDecision(claims, validations, records, opts, i);
      assert IsValidation(validations[i], claims[i], records, opts);
      if HasWitness(claims[i], records, opts) {
        var r :| r in records && Declared(claims[i], r) && Proves(claims[i], r, opts);
        assert r in Bound(claims[i], records);
      }
    }
  }

  /** What a record shows of a claim it proves: it is of this very run, not context only, not cached
      from another run, not a test source unless those are allowed, and its scope supports the claim;
      for a production claim it comes from a production window. */
  predicate Substantiates(claim: ClaimRecord, r: EvidenceRecord, opts: ValidationOptions) {
    && r.evidenceId in claim.evidenceIds
    && r.runId == opts.runId && r.strength != ContextOnly
    && !(r.readType == ReadCached && Truthy(r.originRunId))
    && (r.sourceType == TestSource ==> opts.allowTestSources)
    && (claim.scope.Some? ==> EvidenceScopeSupportsClaimScope(r.sourceScope, claim.scope.value))
    && (claim.scope == Some(Production) ==> r.sourceScope == ProductionScope)
  }

  lemma WitnessSubstantiates(claim: ClaimRecord, records: seq<EvidenceRecord>, opts: ValidationOptions)
    requires HasWitness(claim, records, opts)
    ensures exists r :: r in records && Substantiates(claim, r, opts)
    ensures claim.scope == Some(Production) ==> HasScope(records, ProductionScope)
    ensures claim.scope != Some(NotProvenScope)
  {
    var r :| r in records && Declared(claim, r) && Proves(claim, r, opts);
    assert Substantiates(claim, r, opts);
    var k :| 0 <= k < |records| && records[k] == r;
  }

  /** What an allowed judgment rests on: for every claim a record that substantiates it. A production
      claim makes the run's own verdict scope production or mixed. */
  lemma AllowedJudgmentIsWitnessed(claims: seq<ClaimRecord>, validations: seq<ClaimValidation>, records: seq<EvidenceRecord>,
                                   opts: ValidationOptions, i: nat)
    requires DistinctClaims(claims) && ValidatedBy(claims, validations, records, opts)
    requires i < |claims| && forall j :: 0 <= j < |claims| ==> Passes(claims[j], validations, records)
    ensures exists r :: r in records && Substantiates(claims[i], r, opts)
    ensures claims[i].scope == Some(Production) ==> DeriveVerdictScope(records) in {Production, Mixed}
    ensures claims[i].scope != Some(NotProvenScope)
  {
    GuardEndToEnd(claims, validations, records, opts);
    assert Passes(claims[i], validations, records);
    WitnessSubstantiates(claims[i], records, opts);
  }
}
