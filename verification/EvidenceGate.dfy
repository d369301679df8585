/** The objective completion gate, the telemetry it writes onto the run ledger, and the checker that
    reads it back (evidence-integrity.ts:672-684, 973-1048, 1058-1269, 1896-2023). */
module EvidenceGate {
  import opened Options
  import opened EvidenceRecords
  import Strings

  datatype GateStatus = GProven | GPartiallyProven | GNotProven | GBlocked | GObjectiveMismatch | GRecoveryScopeFailure

  datatype Expansion = Expansion(justified: bool, path: string)

  datatype RunLedger = RunLedger(
    evidenceRecords: seq<EvidenceRecord>,
    claims: seq<ClaimRecord>,
    validations: seq<ClaimResult>,
    completedReads: int,
    uniqueFilesRead: int,
    evidenceFileCount: int,
    acceptedEvidenceCount: int,
    provenClaims: int,
    verdictScope: VerdictScope,
    scopeExpansions: Option<seq<Expansion>>,
    unjustifiedReads: Option<seq<string>>,
    objectiveType: Option<string>,
    requiredClaims: Option<seq<string>>,
    completedClaims: Option<seq<string>>,
    missingClaims: Option<seq<string>>,
    requiredEdges: Option<seq<string>>,
    provenEdges: Option<seq<string>>,
    failedEdges: Option<seq<string>>,
    completionGateResult: Option<GateStatus>)

  // ---- The ledger ----

  /** A completed read of this run, not one served from an earlier run. */
  predicate FreshRead(r: EvidenceRecord) {
    (r.readType == ReadComplete || r.readType == ReadTargeted) && !Truthy(r.originRunId)
  }

  function FreshReads(records: seq<EvidenceRecord>): (r: seq<EvidenceRecord>)
    ensures forall x :: x in r <==> x in records && FreshRead(x)
  {
    Select(records, x => FreshRead(x))
  }

  function ProvenCount(validations: seq<ClaimResult>): nat { |Select(validations, v => v == Proven)| }

  function Files(records: seq<EvidenceRecord>): set<string> { set i | 0 <= i < |records| :: records[i].file }

  function BuildRunLedger(records: seq<EvidenceRecord>, claims: seq<ClaimRecord>, validations: seq<ClaimResult>): RunLedger {
    var completed := FreshReads(records);
    RunLedger(records, claims, validations,
              |completed|, |Files(completed)|, |Files(records)|,
              |Select(records, (r: EvidenceRecord) => r.accepted)|,
              ProvenCount(validations),
              DeriveVerdictScope(records),
              Some([]), Some([]), None, None, None, None, None, None, None, None)
  }

  // ---- The gate ----

  datatype Edge = Edge(from: string, to: string)
  datatype ProvenEdge = ProvenEdge(from: Option<string>, to: Option<string>)

  datatype Objective = Objective(objectiveType: string, requiredClaims: seq<string>, requiredEdges: seq<Edge>)

  datatype GateInput = GateInput(
    ledgerClaims: seq<ClaimRecord>, hasEvidenceRecords: bool,
    objective: Objective, provenEdges: seq<ProvenEdge>, closedClaimIds: seq<string>,
    recoveryScopeViolated: bool, answerTypeMismatch: bool, contradictoryClaimIds: seq<string>)

  datatype GateResult = GateResult(
    status: GateStatus,
    requiredClaims: seq<string>, completedClaims: seq<string>, missingClaims: seq<string>,
    requiredEdges: seq<string>, missingEdges: seq<string>, provenEdges: seq<string>,
    contradictoryClaims: seq<string>)

  function EdgeKey(from: string, to: string): string { from + "->" + to }

  function EdgeKeys(edges: seq<Edge>): (r: seq<string>)
    ensures |r| == |edges|
  {
    seq(|edges|, i requires 0 <= i < |edges| => EdgeKey(edges[i].from, edges[i].to))
  }

  predicate EdgeProven(input: GateInput, key: string) {
    exists i :: 0 <= i < |input.provenEdges| && Truthy(input.provenEdges[i].from) && Truthy(input.provenEdges[i].to)
                && EdgeKey(input.provenEdges[i].from.value, input.provenEdges[i].to.value) == key
  }

  predicate ClaimClosed(input: GateInput, id: string) {
    var objectiveId := "objective:" + id;
    || id in input.closedClaimIds
    || objectiveId in input.closedClaimIds
    || exists i :: 0 <= i < |input.ledgerClaims| && input.ledgerClaims[i].claimId == objectiveId
                   && input.ledgerClaims[i].status == Supported
  }

  function GateStatusOf(input: GateInput, contradicted: bool, allClosed: bool, anyProven: bool): GateStatus {
    var hasEvidence := input.hasEvidenceRecords || input.ledgerClaims != [];
    if input.answerTypeMismatch then GObjectiveMismatch
    else if input.recoveryScopeViolated then GRecoveryScopeFailure
    else if contradicted then GBlocked
    else if allClosed && !hasEvidence then GNotProven
    else if allClosed then GProven
    else if anyProven then GPartiallyProven
    else if hasEvidence then GBlocked else GNotProven
  }

  function Open(input: GateInput): string -> bool { id => !ClaimClosed(input, id) }
  function NotIn(ids: seq<string>): string -> bool { id => id !in ids }
  function Proved(input: GateInput): string -> bool { key => EdgeProven(input, key) }
  function Unproven(input: GateInput): string -> bool { key => !EdgeProven(input, key) }

  function Contradictory(input: GateInput): seq<string> {
    Select(Strings.Distinct(input.contradictoryClaimIds), id => id in input.objective.requiredClaims)
  }

  function MissingClaims(input: GateInput): seq<string> {
    Select(input.objective.requiredClaims, Open(input))
  }

  function CompletedClaims(input: GateInput): seq<string> {
    Select(input.objective.requiredClaims, NotIn(MissingClaims(input)))
  }

  function MissingEdges(input: GateInput): seq<string> {
    Select(EdgeKeys(input.objective.requiredEdges), Unproven(input))
  }

  function ProvenEdges(input: GateInput): seq<string> {
    Select(EdgeKeys(input.objective.requiredEdges), Proved(input))
  }

  function ObjectiveCompletionGate(input: GateInput): GateResult {
    var required := input.objective.requiredClaims;
    var contradictory := Contradictory(input);
    var missing := MissingClaims(input);
    var keys := EdgeKeys(input.objective.requiredEdges);
    var missingEdges := MissingEdges(input);
    var provenEdges := ProvenEdges(input);
    var completed := CompletedClaims(input);
    var status := GateStatusOf(input, contradictory != [], missing == [] && missingEdges == [],
                               provenEdges != [] || |required| - |missing| > 0);
    GateResult(status, required, completed, missing, keys, missingEdges, provenEdges, contradictory)
  }

  function AttachObjectiveTelemetry(l: RunLedger, gate: Option<GateResult>, objectiveType: Option<string>): RunLedger {
    if objectiveType.None? || gate.None? then l
    else
      var g := gate.value;
      l.(objectiveType := objectiveType,
         requiredClaims := Some(g.requiredClaims), completedClaims := Some(g.completedClaims),
         missingClaims := Some(g.missingClaims), requiredEdges := Some(g.requiredEdges),
         provenEdges := Some(g.provenEdges), failedEdges := Some(g.missingEdges),
         completionGateResult := Some(g.status))
  }

  // ---- The checker ----

  datatype Violation =
    | CompletedReadsMismatch | UniqueFilesMismatch | EvidenceWithoutRead | AcceptedExceedsRecords | ProvenExceedsClaims
    | ScopeEscalation
    | MissingRunId(id: string) | MissingReadAttempt(id: string) | CachedWithoutOrigin(id: string)
    | ClaimFieldsIncomplete | ClaimsOverlap | ForeignCompletedClaim(id: string) | ForeignMissingClaim(id: string)
    | ClaimCountMismatch
    | ScopeFieldsIncomplete | UnjustifiedNotRecorded | UnjustifiedForeign | ProvenWithUnjustified
    | EdgesOverlap | EdgesUnaccounted | EdgesForeign
    | ProvenWithMissingClaims | ProvenWithFailedEdges | ProvenWithNothing | PartialWithNothing

  function When(c: bool, v: Violation): seq<Violation> { if c then [v] else [] }

  function ListOf(v: Option<seq<string>>): seq<string> { if v.Some? then v.value else [] }

  predicate EscalatesScope(l: RunLedger) {
    l.verdictScope == Production
    && !HasScope(l.evidenceRecords, ProductionScope) && !HasScope(l.evidenceRecords, GeneratedScope)
  }

  function ReadViolations(l: RunLedger): seq<Violation> {
    var completed := FreshReads(l.evidenceRecords);
    When(l.completedReads != |completed|, CompletedReadsMismatch)
    + When(l.uniqueFilesRead != |Files(completed)|, UniqueFilesMismatch)
    + When(l.evidenceFileCount > l.uniqueFilesRead, EvidenceWithoutRead)
  }

  function CountViolations(l: RunLedger): seq<Violation> {
    ReadViolations(l)
    + When(l.acceptedEvidenceCount > |l.evidenceRecords|, AcceptedExceedsRecords)
    + When(l.provenClaims > |l.claims|, ProvenExceedsClaims)
    + When(EscalatesScope(l), ScopeEscalation)
  }

  function RecordViolations(r: EvidenceRecord): seq<Violation> {
    When(r.runId == "", MissingRunId(r.evidenceId))
    + When(!Truthy(r.readAttemptId), MissingReadAttempt(r.evidenceId))
    + When(r.readType == ReadCached && !Truthy(r.originRunId), CachedWithoutOrigin(r.evidenceId))
  }

  function LineageViolations(records: seq<EvidenceRecord>): seq<Violation> {
    if records == [] then []
    else LineageViolations(records[..|records| - 1]) + RecordViolations(records[|records| - 1])
  }

  function ForeignCompleted(ids: seq<string>, required: seq<string>): seq<Violation> {
    if ids == [] then []
    else
      var id := ids[|ids| - 1];
      ForeignCompleted(ids[..|ids| - 1], required) + When(id !in required, ForeignCompletedClaim(id))
  }

  function ForeignMissing(ids: seq<string>, required: seq<string>): seq<Violation> {
    if ids == [] then []
    else
      var id := ids[|ids| - 1];
      ForeignMissing(ids[..|ids| - 1], required) + When(id !in required, ForeignMissingClaim(id))
  }

  function ClaimViolations(l: RunLedger): seq<Violation> {
    if l.requiredClaims.None? || l.completedClaims.None? || l.missingClaims.None? then [ClaimFieldsIncomplete]
    else
      var required, completed, missing := l.requiredClaims.value, l.completedClaims.value, l.missingClaims.value;
      ClaimListViolations(required, completed, missing)
  }

  function ClaimListViolations(required: seq<string>, completed: seq<string>, missing: seq<string>): seq<Violation> {
    When(exists id :: id in completed && id in missing, ClaimsOverlap)
    + ForeignCompleted(completed, required) + ForeignMissing(missing, required)
    + When(|completed| + |missing| != |required|, ClaimCountMismatch)
  }

  function UnjustifiedPaths(expansions: seq<Expansion>): set<string> {
    set i | 0 <= i < |expansions| && !expansions[i].justified :: expansions[i].path
  }

  function ScopeViolations(l: RunLedger): seq<Violation> {
    if l.scopeExpansions.None? || l.unjustifiedReads.None? then [ScopeFieldsIncomplete]
    else
      var paths, seen := UnjustifiedPaths(l.scopeExpansions.value), l.unjustifiedReads.value;
      When(exists p :: p in paths && p !in seen, UnjustifiedNotRecorded)
      + When(exists p :: p in seen && p !in paths, UnjustifiedForeign)
      + When(seen != [] && l.completionGateResult == Some(GProven), ProvenWithUnjustified)
  }

  function EdgeViolations(l: RunLedger): seq<Violation> {
    if l.requiredEdges.None? then []
    else
      var required, proven, failed := l.requiredEdges.value, ListOf(l.provenEdges), ListOf(l.failedEdges);
      When(exists e :: e in proven && e in failed, EdgesOverlap)
      + When(exists e :: e in required && e !in proven && e !in failed, EdgesUnaccounted)
      + When(exists e :: e in proven + failed && e !in required, EdgesForeign)
  }

  function VerdictViolations(l: RunLedger): seq<Violation> {
    var completed, proven := ListOf(l.completedClaims), ListOf(l.provenEdges);
    if l.completionGateResult == Some(GProven) then
      When(ListOf(l.missingClaims) != [], ProvenWithMissingClaims)
      + When(ListOf(l.failedEdges) != [], ProvenWithFailedEdges)
      + When((ListOf(l.requiredClaims) != [] || ListOf(l.requiredEdges) != []) && completed == [] && proven == [],
             ProvenWithNothing)
    else When(l.completionGateResult == Some(GPartiallyProven) && completed == [] && proven == [], PartialWithNothing)
  }

  function ObjectiveViolations(l: RunLedger): seq<Violation> {
    if l.objectiveType.None? then []
    else ClaimViolations(l) + ScopeViolations(l) + EdgeViolations(l) + VerdictViolations(l)
  }

  function TelemetryViolations(l: RunLedger): seq<Violation> {
    CountViolations(l) + LineageViolations(l.evidenceRecords) + ObjectiveViolations(l)
  }

  method CheckRecord(r: EvidenceRecord) returns (violations: seq<Violation>)
    ensures violations == RecordViolations(r)
  {
    violations := [];
    if r.runId == "" { violations := violations + [MissingRunId(r.evidenceId)]; }
    if !Truthy(r.readAttemptId) { violations := violations + [MissingReadAttempt(r.evidenceId)]; }
    if r.readType == ReadCached && !Truthy(r.originRunId) { violations := violations + [CachedWithoutOrigin(r.evidenceId)]; }
  }

  method ValidateEvidenceLineage(records: seq<EvidenceRecord>) returns (violations: seq<Violation>)
    ensures violations == LineageViolations(records)
  {
    violations := [];
    for i := 0 to |records|
      invariant violations == LineageViolations(records[..i])
    {
      var found := CheckRecord(records[i]);
      violations := violations + found;
      assert records[..i + 1][..i] == records[..i];
    }
    assert records[..|records|] == records;
  }

  method CheckClaimTelemetry(l: RunLedger) returns (violations: seq<Violation>)
    ensures violations == ClaimViolations(l)
  {
    if l.requiredClaims.None? || l.completedClaims.None? || l.missingClaims.None? {
      return [ClaimFieldsIncomplete];
    }
    var required, completed, missing := l.requiredClaims.value, l.completedClaims.value, l.missingClaims.value;
    violations := When(exists id :: id in completed && id in missing, ClaimsOverlap);
    var foreign := CheckCompleted(completed, required);
    violations := violations + foreign;
    foreign := CheckMissing(missing, required);
    violations := violations + foreign;
    violations := violations + When(|completed| + |missing| != |required|, ClaimCountMismatch);
  }

  method CheckCompleted(ids: seq<string>, required: seq<string>) returns (violations: seq<Violation>)
    ensures violations == ForeignCompleted(ids, required)
  {
    violations := [];
    for i := 0 to |ids|
      invariant violations == ForeignCompleted(ids[..i], required)
    {
      if ids[i] !in required {
        violations := violations + [ForeignCompletedClaim(ids[i])];
      }
      assert ids[..i + 1][..i] == ids[..i];
    }
    assert ids[..|ids|] == ids;
  }

  method CheckMissing(ids: seq<string>, required: seq<string>) returns (violations: seq<Violation>)
    ensures violations == ForeignMissing(ids, required)
  {
    violations := [];
    for i := 0 to |ids|
      invariant violations == ForeignMissing(ids[..i], required)
    {
      if ids[i] !in required {
        violations := violations + [ForeignMissingClaim(ids[i])];
      }
      assert ids[..i + 1][..i] == ids[..i];
    }
    assert ids[..|ids|] == ids;
  }

  method CheckReadCounts(l: RunLedger) returns (violations: seq<Violation>)
    ensures violations == ReadViolations(l)
  {
    violations := [];
    var completed := FreshReads(l.evidenceRecords);
    if l.completedReads != |completed| {
      violations := violations + [CompletedReadsMismatch];
    }
    if l.uniqueFilesRead != |Files(completed)| {
      violations := violations + [UniqueFilesMismatch];
    }
    if l.evidenceFileCount > l.uniqueFilesRead {
      violations := violations + [EvidenceWithoutRead];
    }
  }

  method CheckCounts(l: RunLedger) returns (violations: seq<Violation>)
    ensures violations == CountViolations(l)
  {
    violations := CheckReadCounts(l);
    if l.acceptedEvidenceCount > |l.evidenceRecords| {
      violations := violations + [AcceptedExceedsRecords];
    }
    if l.provenClaims > |l.claims| {
      violations := violations + [ProvenExceedsClaims];
    }
    if l.verdictScope == Production
      && !HasScope(l.evidenceRecords, ProductionScope) && !HasScope(l.evidenceRecords, GeneratedScope) {
      violations := violations + [ScopeEscalation];
    }
  }

  method CheckScope(l: RunLedger) returns (violations: seq<Violation>)
    ensures violations == ScopeViolations(l)
  {
    violations := [];
    if l.scopeExpansions.None? || l.unjustifiedReads.None? {
      return [ScopeFieldsIncomplete];
    }
    var paths, seen := UnjustifiedPaths(l.scopeExpansions.value), l.unjustifiedReads.value;
    if exists p :: p in paths && p !in seen {
      violations := violations + [UnjustifiedNotRecorded];
    }
    if exists p :: p in seen && p !in paths {
      violations := violations + [UnjustifiedForeign];
    }
    if seen != [] && l.completionGateResult == Some(GProven) {
      violations := violations + [ProvenWithUnjustified];
    }
  }

  method CheckEdges(l: RunLedger) returns (violations: seq<Violation>)
    ensures violations == EdgeViolations(l)
  {
    violations := [];
    if l.requiredEdges.Some? {
      var required, proven, failed := l.requiredEdges.value, ListOf(l.provenEdges), ListOf(l.failedEdges);
      var accounted := proven + failed;
      if exists e :: e in proven && e in failed {
        violations := violations + [EdgesOverlap];
      }
      assert forall e :: e in accounted <==> e in proven || e in failed;
      if exists e :: e in required && e !in accounted {
        violations := violations + [EdgesUnaccounted];
      }
      if exists e :: e in accounted && e !in required {
        violations := violations + [EdgesForeign];
      }
    }
  }

  method CheckVerdict(l: RunLedger) returns (violations: seq<Violation>)
    ensures violations == VerdictViolations(l)
  {
    violations := [];
    var required := |ListOf(l.requiredClaims)| + |ListOf(l.requiredEdges)|;
    var proven := |ListOf(l.completedClaims)| + |ListOf(l.provenEdges)|;
    if l.completionGateResult == Some(GProven) {
      if |ListOf(l.missingClaims)| > 0 {
        violations := violations + [ProvenWithMissingClaims];
      }
      if |ListOf(l.failedEdges)| > 0 {
        violations := violations + [ProvenWithFailedEdges];
      }
      if required > 0 && proven == 0 {
        violations := violations + [ProvenWithNothing];
      }
    } else if l.completionGateResult == Some(GPartiallyProven) {
      if proven == 0 {
        violations := violations + [PartialWithNothing];
      }
    }
  }

  /** The checker: consistent exactly when it finds no violation. */
  method ValidateTelemetry(l: RunLedger) returns (consistent: bool, violations: seq<Violation>)
    ensures violations == TelemetryViolations(l)
    ensures consistent <==> violations == []
  {
    violations := CheckCounts(l);
    var lineage := ValidateEvidenceLineage(l.evidenceRecords);
    violations := violations + lineage;
    if l.objectiveType.Some? {
      var claims := CheckClaimTelemetry(l);
      var scope := CheckScope(l);
      var edges := CheckEdges(l);
      var verdict := CheckVerdict(l);
      violations := violations + (claims + scope + edges + verdict);
    }
    consistent := violations == [];
  }

  // ---- Agreement ----

  lemma {:induction false} NoForeign(ids: seq<string>, required: seq<string>)
    requires forall id :: id in ids ==> id in required
    ensures ForeignCompleted(ids, required) == [] && ForeignMissing(ids, required) == []
  {
    if ids != [] {
      assert ids[|ids| - 1] in ids;
      NoForeign(ids[..|ids| - 1], required);
    }
  }

  /** The gate partitions its required claims and edges: nothing is lost, nothing is on both sides. */
  lemma GatePartitions(input: GateInput)
    ensures var g := ObjectiveCompletionGate(input);
      && multiset(g.completedClaims) + multiset(g.missingClaims) == multiset(g.requiredClaims)
      && |g.completedClaims| + |g.missingClaims| == |g.requiredClaims|
      && (forall id :: !(id in g.completedClaims && id in g.missingClaims))
      && (forall id :: id in g.completedClaims || id in g.missingClaims ==> id in g.requiredClaims)
    ensures var g := ObjectiveCompletionGate(input);
      && multiset(g.provenEdges) + multiset(g.missingEdges) == multiset(g.requiredEdges)
      && |g.provenEdges| + |g.missingEdges| == |g.requiredEdges|
      && (forall e :: !(e in g.provenEdges && e in g.missingEdges))
      && (forall e :: e in g.requiredEdges <==> e in g.provenEdges || e in g.missingEdges)
  {
    SelectSplits(input.objective.requiredClaims, NotIn(MissingClaims(input)), Open(input));
    SelectSplits(EdgeKeys(input.objective.requiredEdges), Proved(input), Unproven(input));
  }

  /** The run ledger carries the gate's result. */
  ghost predicate Carries(a: RunLedger, g: GateResult) {
    && a.requiredClaims == Some(g.requiredClaims) && a.completedClaims == Some(g.completedClaims)
    && a.missingClaims == Some(g.missingClaims) && a.requiredEdges == Some(g.requiredEdges)
    && a.provenEdges == Some(g.provenEdges) && a.failedEdges == Some(g.missingEdges)
    && a.completionGateResult == Some(g.status) && a.scopeExpansions == Some([]) && a.unjustifiedReads == Some([])
  }

  lemma CleanClaimLists(required: seq<string>, completed: seq<string>, missing: seq<string>)
    requires forall id :: !(id in completed && id in missing)
    requires forall id :: id in completed || id in missing ==> id in required
    requires |completed| + |missing| == |required|
    ensures ClaimListViolations(required, completed, missing) == []
  {
    NoForeign(completed, required);
    NoForeign(missing, required);
  }

  lemma ClaimsAreClean(input: GateInput, a: RunLedger)
    requires Carries(a, ObjectiveCompletionGate(input))
    ensures ClaimViolations(a) == []
  {
    var g := ObjectiveCompletionGate(input);
    GatePartitions(input);
    CleanClaimLists(g.requiredClaims, g.completedClaims, g.missingClaims);
  }

  lemma EdgesAreClean(input: GateInput, a: RunLedger)
    requires Carries(a, ObjectiveCompletionGate(input))
    ensures EdgeViolations(a) == []
  {
    GatePartitions(input);
  }

  lemma ScopesAreClean(input: GateInput, a: RunLedger)
    requires Carries(a, ObjectiveCompletionGate(input))
    ensures ScopeViolations(a) == []
  {
    assert UnjustifiedPaths([]) == {};
  }

  lemma VerdictViolationsClean(input: GateInput, a: RunLedger)
    requires Carries(a, ObjectiveCompletionGate(input))
    ensures VerdictViolations(a) == []
  {
    VerdictIsClean(input);
  }

  /** A gate result never makes the checker complain about claims, scopes, edges or the verdict. */
  lemma CarriedIsClean(input: GateInput, a: RunLedger)
    requires Carries(a, ObjectiveCompletionGate(input))
    ensures ObjectiveViolations(a) == []
  {
    ClaimsAreClean(input, a);
    ScopesAreClean(input, a);
    EdgesAreClean(input, a);
    VerdictViolationsClean(input, a);
  }

  lemma VerdictIsClean(input: GateInput)
    ensures var g := ObjectiveCompletionGate(input);
      && (g.status == GProven ==> g.missingClaims == [] && g.missingEdges == [])
      && (g.status == GProven && (g.requiredClaims != [] || g.requiredEdges != []) ==> g.completedClaims != [] || g.provenEdges != [])
      && (g.status == GPartiallyProven ==> g.completedClaims != [] || g.provenEdges != [])
  {
    var g := ObjectiveCompletionGate(input);
    GateSizes(input);
    StatusFacts(input, g.contradictoryClaims != [], g.missingClaims == [] && g.missingEdges == [],
                g.provenEdges != [] || |g.requiredClaims| - |g.missingClaims| > 0);
  }

  lemma GateSizes(input: GateInput)
    ensures var g := ObjectiveCompletionGate(input);
      && |g.completedClaims| + |g.missingClaims| == |g.requiredClaims|
      && |g.provenEdges| + |g.missingEdges| == |g.requiredEdges|
  {
    GatePartitions(input);
  }

  lemma StatusFacts(input: GateInput, contradicted: bool, allClosed: bool, anyProven: bool)
    ensures GateStatusOf(input, contradicted, allClosed, anyProven) == GProven ==> allClosed
    ensures GateStatusOf(input, contradicted, allClosed, anyProven) == GPartiallyProven ==> anyProven
  {
  }

  /** `proven` promises exactly this: no mismatch, no scope violation, no contradicted required
      claim, every required claim closed, every required edge proven, and some evidence at all. */
  lemma ProvenMeans(input: GateInput)
    ensures ObjectiveCompletionGate(input).status == GProven <==>
      && !input.answerTypeMismatch && !input.recoveryScopeViolated
      && (forall id :: id in input.contradictoryClaimIds ==> id !in input.objective.requiredClaims)
      && (forall id :: id in input.objective.requiredClaims ==> ClaimClosed(input, id))
      && (forall i :: 0 <= i < |input.objective.requiredEdges| ==>
            EdgeProven(input, EdgeKey(input.objective.requiredEdges[i].from, input.objective.requiredEdges[i].to)))
      && (input.hasEvidenceRecords || input.ledgerClaims != [])
  {
    var g := ObjectiveCompletionGate(input);
    Strings.DistinctFacts(input.contradictoryClaimIds);
    EmptyMeansNoMember(g.contradictoryClaims);
    EmptyMeansNoMember(g.missingClaims);
    EmptyMeansNoMember(g.missingEdges);
    EdgesProvenByKey(input);
  }

  predicate SomethingClosed(input: GateInput) {
    || (exists id :: id in input.objective.requiredClaims && ClaimClosed(input, id))
    || (exists key :: key in EdgeKeys(input.objective.requiredEdges) && EdgeProven(input, key))
  }

  predicate SomethingOpen(input: GateInput) {
    || (exists id :: id in input.objective.requiredClaims && !ClaimClosed(input, id))
    || (exists key :: key in EdgeKeys(input.objective.requiredEdges) && !EdgeProven(input, key))
  }

  lemma ClosedMeans(input: GateInput)
    ensures var g := ObjectiveCompletionGate(input);
      SomethingClosed(input) <==> g.provenEdges != [] || |g.requiredClaims| - |g.missingClaims| > 0
  {
    var g := ObjectiveCompletionGate(input);
    EmptyMeansNoMember(g.provenEdges);
    EmptyMeansNoMember(g.completedClaims);
    GateSizes(input);
  }

  lemma OpenMeans(input: GateInput)
    ensures var g := ObjectiveCompletionGate(input);
      SomethingOpen(input) <==> !(g.missingClaims == [] && g.missingEdges == [])
  {
    EmptyMeansNoMember(ObjectiveCompletionGate(input).missingClaims);
    EmptyMeansNoMember(ObjectiveCompletionGate(input).missingEdges);
  }

  /** `partially proven` exactly when nothing stands against the run, something required is still open
      and something required is closed. */
  lemma PartiallyProvenMeans(input: GateInput)
    ensures ObjectiveCompletionGate(input).status == GPartiallyProven <==>
      && !input.answerTypeMismatch && !input.recoveryScopeViolated
      && (forall id :: id in input.contradictoryClaimIds ==> id !in input.objective.requiredClaims)
      && SomethingOpen(input) && SomethingClosed(input)
  {
    var g := ObjectiveCompletionGate(input);
    Strings.DistinctFacts(input.contradictoryClaimIds);
    EmptyMeansNoMember(g.contradictoryClaims);
    ClosedMeans(input);
    OpenMeans(input);
  }

  lemma EdgesProvenByKey(input: GateInput)
    ensures var edges := input.objective.requiredEdges;
      (forall k :: k in EdgeKeys(edges) ==> EdgeProven(input, k)) <==>
      (forall i :: 0 <= i < |edges| ==> EdgeProven(input, EdgeKey(edges[i].from, edges[i].to)))
  {
    var edges := input.objective.requiredEdges;
    var keys := EdgeKeys(edges);
    assert forall i :: 0 <= i < |edges| ==> keys[i] == EdgeKey(edges[i].from, edges[i].to) && keys[i] in keys;
  }

  lemma EmptyMeansNoMember(xs: seq<string>)
    ensures xs == [] <==> forall x :: x !in xs
  {
    if xs != [] {
      assert xs[0] in xs;
    }
  }

  predicate LineageClean(records: seq<EvidenceRecord>) {
    forall i :: 0 <= i < |records| ==>
      records[i].runId != "" && Truthy(records[i].readAttemptId)
      && (records[i].readType == ReadCached ==> Truthy(records[i].originRunId))
  }

  lemma {:induction false} LineageCleanIff(records: seq<EvidenceRecord>)
    ensures LineageViolations(records) == [] <==> LineageClean(records)
  {
    if records != [] {
      var m := |records| - 1;
      LineageCleanIff(records[..m]);
      assert LineageClean(records) <==> LineageClean(records[..m]) && RecordViolations(records[m]) == [];
    }
  }

  /** Every file that appears in evidence has a completed read of this run. */
  predicate EveryFileRead(records: seq<EvidenceRecord>) {
    forall i :: 0 <= i < |records| ==> exists j :: 0 <= j < |records| && records[j].file == records[i].file && FreshRead(records[j])
  }

  lemma FileCountIff(records: seq<EvidenceRecord>)
    ensures |Files(records)| <= |Files(FreshReads(records))| <==> EveryFileRead(records)
  {
    FreshFilesKnown(records);
    SizesDecide(Files(FreshReads(records)), Files(records));
    FilesRead(records);
  }

  lemma FreshFilesKnown(records: seq<EvidenceRecord>)
    ensures Files(FreshReads(records)) <= Files(records)
  {
    var completed := FreshReads(records);
    forall f | f in Files(completed) ensures f in Files(records) {
      var i :| 0 <= i < |completed| && completed[i].file == f;
      assert completed[i] in records;
    }
  }

  lemma SizesDecide(a: set<string>, b: set<string>)
    requires a <= b
    ensures |b| <= |a| <==> b <= a
  {
    Strings.SubsetSize(a, b);
    if b <= a {
      Strings.SubsetSize(b, a);
    }
  }

  lemma FilesRead(records: seq<EvidenceRecord>)
    ensures EveryFileRead(records) <==> Files(records) <= Files(FreshReads(records))
  {
    var completed := FreshReads(records);
    forall i | 0 <= i < |records|
      ensures (exists j :: 0 <= j < |records| && records[j].file == records[i].file && FreshRead(records[j]))
        <==> records[i].file in Files(completed)
    {
      if records[i].file in Files(completed) {
        var c :| 0 <= c < |completed| && completed[c].file == records[i].file;
        assert completed[c] in records;
      }
      if j :| 0 <= j < |records| && records[j].file == records[i].file && FreshRead(records[j]) {
        assert records[j] in completed;
      }
    }
    assert forall i :: 0 <= i < |records| ==> records[i].file in Files(records);
  }

  /** With or without an objective, only the run's own complaints are left. */
  lemma OwnComplaints(records: seq<EvidenceRecord>, claims: seq<ClaimRecord>, validations: seq<ClaimResult>,
                      input: GateInput, objectiveType: Option<string>, gated: bool)
    ensures var l := BuildRunLedger(records, claims, validations);
      var gate := if gated then Some(ObjectiveCompletionGate(input)) else None;
      TelemetryViolations(AttachObjectiveTelemetry(l, gate, objectiveType))
        == When(!EveryFileRead(records), EvidenceWithoutRead)
           + When(ProvenCount(validations) > |claims|, ProvenExceedsClaims)
           + LineageViolations(records)
  {
    var l := BuildRunLedger(records, claims, validations);
    var a := AttachObjectiveTelemetry(l, if gated then Some(ObjectiveCompletionGate(input)) else None, objectiveType);
    ObjectiveSideIsClean(l, input, objectiveType, gated);
    AttachingKeeps(l, if gated then Some(ObjectiveCompletionGate(input)) else None, objectiveType);
    CountsOf(records, claims, validations, a);
    assert TelemetryViolations(a) == CountViolations(a) + LineageViolations(records) + [];
  }

  /** Attaching a gate result changes nothing the run recorded itself. */
  lemma AttachingKeeps(l: RunLedger, gate: Option<GateResult>, objectiveType: Option<string>)
    ensures var a := AttachObjectiveTelemetry(l, gate, objectiveType);
      && a.evidenceRecords == l.evidenceRecords && a.claims == l.claims && a.completedReads == l.completedReads
      && a.uniqueFilesRead == l.uniqueFilesRead && a.evidenceFileCount == l.evidenceFileCount
      && a.acceptedEvidenceCount == l.acceptedEvidenceCount && a.provenClaims == l.provenClaims
      && a.verdictScope == l.verdictScope
  {
  }

  /** Gate and checker agree. For every ledger built by a run and every gate input, with or without
      an objective, the only complaints left are the run's own: evidence in a file never freshly
      read, more proven validations than claims, and broken lineage. The ledger is consistent
      exactly when there is none of them. */
  lemma GateAndTelemetryAgree(records: seq<EvidenceRecord>, claims: seq<ClaimRecord>, validations: seq<ClaimResult>,
                              input: GateInput, objectiveType: Option<string>, gated: bool)
    ensures var l := BuildRunLedger(records, claims, validations);
      var gate := if gated then Some(ObjectiveCompletionGate(input)) else None;
      var violations := TelemetryViolations(AttachObjectiveTelemetry(l, gate, objectiveType));
      && violations == When(!EveryFileRead(records), EvidenceWithoutRead)
                       + When(ProvenCount(validations) > |claims|, ProvenExceedsClaims)
                       + LineageViolations(records)
      && (violations == [] <==>
            EveryFileRead(records) && ProvenCount(validations) <= |claims| && LineageClean(records))
  {
    OwnComplaints(records, claims, validations, input, objectiveType, gated);
    LineageCleanIff(records);
  }

  lemma ObjectiveSideIsClean(l: RunLedger, input: GateInput, objectiveType: Option<string>, gated: bool)
    requires l.objectiveType.None? && l.scopeExpansions == Some([]) && l.unjustifiedReads == Some([])
    ensures ObjectiveViolations(AttachObjectiveTelemetry(l, if gated then Some(ObjectiveCompletionGate(input)) else None, objectiveType)) == []
  {
    var a := AttachObjectiveTelemetry(l, if gated then Some(ObjectiveCompletionGate(input)) else None, objectiveType);
    if objectiveType.Some? && gated {
      CarriedIsClean(input, a);
    }
  }

  lemma CountsOf(records: seq<EvidenceRecord>, claims: seq<ClaimRecord>, validations: seq<ClaimResult>, a: RunLedger)
    requires var l := BuildRunLedger(records, claims, validations);
      && a.evidenceRecords == records && a.claims == claims && a.completedReads == l.completedReads
      && a.uniqueFilesRead == l.uniqueFilesRead && a.evidenceFileCount == l.evidenceFileCount
      && a.acceptedEvidenceCount == l.acceptedEvidenceCount && a.provenClaims == l.provenClaims
      && a.verdictScope == l.verdictScope
    ensures CountViolations(a) == When(!EveryFileRead(records), EvidenceWithoutRead)
                                  + When(ProvenCount(validations) > |claims|, ProvenExceedsClaims)
  {
    FileCountIff(records);
    assert !EscalatesScope(a);
    assert When(false, CompletedReadsMismatch) == [];
  }
}
