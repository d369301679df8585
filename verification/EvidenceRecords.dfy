/** Evidence, claims and their proof scopes (evidence-integrity.ts:86-345, 427-441, 672-684). */
module EvidenceRecords {
  import opened Options

  datatype ReadType = ReadComplete | ReadTargeted | ReadTruncated | ReadCached | ReadFailed
  datatype SourceType = Implementation | TestSource | Config | UnknownSource
  datatype SourceScope = ProductionScope | FixtureScope | TestScope | SpecScope | GeneratedScope | UnknownScope
  datatype VerdictScope = Production | FixtureLocal | TestLocal | SpecLocal | Mixed | NotProvenScope
  datatype Strength = Direct | Indirect | ContextOnly
  datatype Span = Span(startLine: int, endLine: int)

  datatype EvidenceRecord = EvidenceRecord(
    evidenceId: string, runId: string, file: string, symbol: Option<string>, span: Option<Span>,
    readType: ReadType, accepted: bool, sourceType: SourceType, readAttemptId: Option<string>,
    originRunId: Option<string>, strength: Strength, sourceScope: SourceScope)

  datatype ClaimStatus = Supported | Unsupported | ClaimNotProven
  datatype Category = Behavior | ProductionReachability | Finding | Structural

  datatype SourceSpan = SourceSpan(file: string, span: Option<Span>)
  datatype Binding = Binding(claimId: string, evidenceIds: seq<string>, sourceSpans: seq<SourceSpan>)

  datatype ClaimRecord = ClaimRecord(
    claimId: string, text: string, symbol: Option<string>, category: Option<Category>,
    scope: Option<VerdictScope>, evidenceIds: seq<string>, status: ClaimStatus, binding: Option<Binding>)

  datatype ClaimResult = Proven | NotProven | Rejected

  /** An optional string that is present and not empty. */
  predicate Truthy(v: Option<string>) { v.Some? && v.value != "" }

  /** The elements of `xs` that satisfy `p`, in order. */
  function Select<T(==,!new)>(xs: seq<T>, p: T -> bool): (r: seq<T>)
    ensures forall x :: x in r <==> x in xs && p(x)
    ensures |r| <= |xs|
  {
    if xs == [] then []
    else
      var m := |xs| - 1;
      assert xs == xs[..m] + [xs[m]];
      Select(xs[..m], p) + (if p(xs[m]) then [xs[m]] else [])
  }

  lemma SelectSnoc<T(!new)>(xs: seq<T>, x: T, p: T -> bool)
    ensures Select(xs + [x], p) == if p(x) then Select(xs, p) + [x] else Select(xs, p)
  {
    assert (xs + [x])[..|xs|] == xs;
  }

  /** The two lists share out the elements of a third. */
  ghost predicate Shares<T>(a: seq<T>, b: seq<T>, xs: seq<T>) {
    multiset(a) + multiset(b) == multiset(xs) && |a| + |b| == |xs|
  }

  lemma SharesSnoc<T>(a: seq<T>, b: seq<T>, xs: seq<T>, x: T, left: bool)
    requires Shares(a, b, xs)
    ensures Shares(if left then a + [x] else a, if left then b else b + [x], xs + [x])
  {
  }

  lemma {:induction false} SelectSplits<T(!new)>(xs: seq<T>, p: T -> bool, q: T -> bool)
    requires forall x :: x in xs ==> (p(x) <==> !q(x))
    ensures Shares(Select(xs, p), Select(xs, q), xs)
  {
    if xs != [] {
      var init, x := xs[..|xs| - 1], xs[|xs| - 1];
      assert xs == init + [x];
      SelectSplits(init, p, q);
      SharesSnoc(Select(init, p), Select(init, q), init, x, p(x));
      SelectSnoc(init, x, p);
      SelectSnoc(init, x, q);
    }
  }

  predicate HasScope(records: seq<EvidenceRecord>, scope: SourceScope) {
    exists i :: 0 <= i < |records| && records[i].sourceScope == scope
  }

  function DeriveVerdictScope(records: seq<EvidenceRecord>): VerdictScope {
    var hasLocal := HasScope(records, FixtureScope) || HasScope(records, TestScope) || HasScope(records, SpecScope);
    if HasScope(records, ProductionScope) then if hasLocal then Mixed else Production
    else if HasScope(records, FixtureScope) then FixtureLocal
    else if HasScope(records, TestScope) then TestLocal
    else if HasScope(records, SpecScope) then SpecLocal
    else NotProvenScope
  }

  predicate EvidenceScopeSupportsClaimScope(evidence: SourceScope, claim: VerdictScope) {
    match claim
    case NotProvenScope => false
    case Mixed => evidence == ProductionScope
    case Production => evidence == ProductionScope
    case FixtureLocal => evidence == FixtureScope || evidence == ProductionScope
    case TestLocal => evidence == TestScope || evidence == ProductionScope
    case SpecLocal => evidence == SpecScope || evidence == ProductionScope
  }
}
