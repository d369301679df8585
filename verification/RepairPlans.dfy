/** The executable repair plan of an envelope (forensic-recovery.ts:416-496). */
module RepairPlans {
  import opened Options
  import opened Strings
  import opened ForensicMerge

  /** The vocabularies and path rules the plan consults, as given functions: a path's canonical form,
      whether steps describe a source change, and the profile registered for files. */
  datatype Rules = Rules(
    canonical: string -> string, changesSource: seq<string> -> bool, profileFor: seq<string> -> Option<string>,
    inScope: Option<string -> bool>)

  datatype Reason =
    | Duplicated | UnknownFinding | NoFiles | NotRelative | OutsideFinding | OutsideScope | NotRead
    | NoSourceChange | NoProfile | WrongProfile

  datatype Violation = Violation(findingId: string, reason: Reason)
  datatype Plan = Plan(findingId: string, files: seq<string>, steps: seq<string>, profile: string)
  datatype Outcome = Accepted(plan: Plan) | Refused(reason: Reason)

  predicate ProjectRelative(file: string) {
    !(file != "" && file[0] == '/') && file != ".." && !("../" <= file)
  }

  function Canonical(rules: Rules, files: seq<string>): (r: seq<string>)
    ensures forall f :: f in r <==> f != "" && exists i :: 0 <= i < |files| && rules.canonical(files[i]) == f
  {
    if files == [] then []
    else
      var f := rules.canonical(files[|files| - 1]);
      Canonical(rules, files[..|files| - 1]) + (if f != "" then [f] else [])
  }

  function FilesFor(rules: Rules, finding: Finding, phase: Phase): seq<string> {
    if phase.files.Some? then Canonical(rules, phase.files.value) else Distinct(Canonical(rules, finding.files))
  }

  predicate AllHold(files: seq<string>, p: string -> bool) { forall f :: f in files ==> p(f) }

  /** The checks of one phase, in the order the source makes them; `seen` holds the finding ids of
      the phases before it. */
  function Check(rules: Rules, findings: seq<Finding>, read: set<string>, seen: set<string>, phase: Phase): Outcome {
    var at := LastWith(findings, phase.findingId);
    if phase.findingId in seen then Refused(Duplicated)
    else if at.None? then Refused(UnknownFinding)
    else
      var finding := findings[at.value];
      var files := FilesFor(rules, finding, phase);
      var profile := rules.profileFor(files);
      if files == [] then Refused(NoFiles)
      else if !AllHold(files, ProjectRelative) then Refused(NotRelative)
      else if exists f :: f in files && f !in Canonical(rules, finding.files) then Refused(OutsideFinding)
      else if rules.inScope.Some? && !AllHold(files, rules.inScope.value) then Refused(OutsideScope)
      else if exists f :: f in files && f !in read then Refused(NotRead)
      else if !rules.changesSource(phase.steps) then Refused(NoSourceChange)
      else if profile.None? then Refused(NoProfile)
      else if phase.profile.Some? && phase.profile != profile then Refused(WrongProfile)
      else Accepted(Plan(phase.findingId, files, phase.steps, profile.value))
  }

  function SeenIds(phases: seq<Phase>): set<string> { set i | 0 <= i < |phases| :: phases[i].findingId }

  /** The outcome of the i-th phase of the envelope. */
  function OutcomeAt(rules: Rules, e: Envelope, read: set<string>, i: nat): Outcome
    requires i < |e.repairPlan|
  {
    Check(rules, e.findings, read, SeenIds(e.repairPlan[..i]), e.repairPlan[i])
  }

  /** The phase is the first with its finding, the finding exists, its files are its finding's, relative
      to the project, in scope and read, its steps change source, and it keeps to the registered profile. */
  predicate Deserves(rules: Rules, e: Envelope, read: set<string>, i: nat)
    requires i < |e.repairPlan|
  {
    var phase := e.repairPlan[i];
    var at := LastWith(e.findings, phase.findingId);
    && (forall j :: 0 <= j < i ==> e.repairPlan[j].findingId != phase.findingId)
    && at.Some?
    && var finding := e.findings[at.value];
       var files := FilesFor(rules, finding, phase);
       && files != []
       && (forall f :: f in files ==>
             f in Canonical(rules, finding.files) && f in read && ProjectRelative(f)
             && (rules.inScope.Some? ==> rules.inScope.value(f)))
       && rules.changesSource(phase.steps)
       && rules.profileFor(files).Some? && (phase.profile.Some? ==> phase.profile == rules.profileFor(files))
  }

  lemma SeenIff(phases: seq<Phase>, i: nat, id: string)
    requires i <= |phases|
    ensures id !in SeenIds(phases[..i]) <==> forall j :: 0 <= j < i ==> phases[j].findingId != id
  {
    forall j | 0 <= j < i ensures phases[..i][j].findingId in SeenIds(phases[..i]) && phases[..i][j] == phases[j] {}
  }

  /** A phase is accepted exactly when it deserves to be, whatever the order of the checks. */
  lemma AcceptedIff(rules: Rules, e: Envelope, read: set<string>, i: nat)
    requires i < |e.repairPlan|
    ensures OutcomeAt(rules, e, read, i).Accepted? <==> Deserves(rules, e, read, i)
  {
    SeenIff(e.repairPlan, i, e.repairPlan[i].findingId);
  }

  /** What an accepted plan may carry into execution. */
  ghost predicate Executable(rules: Rules, e: Envelope, read: set<string>, plan: Plan) {
    && plan.files != []
    && (exists finding :: finding in e.findings && finding.id == plan.findingId && Covers(rules, finding, plan.files))
    && (forall f :: f in plan.files ==> f in read && ProjectRelative(f) && (rules.inScope.Some? ==> rules.inScope.value(f)))
    && rules.changesSource(plan.steps) && rules.profileFor(plan.files) == Some(plan.profile)
  }

  ghost predicate Covers(rules: Rules, finding: Finding, files: seq<string>) {
    forall f :: f in files ==> f in Canonical(rules, finding.files)
  }

  lemma AcceptedIsExecutable(rules: Rules, e: Envelope, read: set<string>, i: nat)
    requires i < |e.repairPlan| && OutcomeAt(rules, e, read, i).Accepted?
    ensures Executable(rules, e, read, OutcomeAt(rules, e, read, i).plan)
  {
    var finding := e.findings[LastWith(e.findings, e.repairPlan[i].findingId).value];
    DistinctFacts(Canonical(rules, finding.files));
    assert Covers(rules, finding, OutcomeAt(rules, e, read, i).plan.files);
  }

  function Outcomes(rules: Rules, e: Envelope, read: set<string>): seq<Outcome> {
    seq(|e.repairPlan|, i requires 0 <= i < |e.repairPlan| => OutcomeAt(rules, e, read, i))
  }

  function PlansIn(outcomes: seq<Outcome>): seq<Plan> {
    if outcomes == [] then []
    else
      var last := outcomes[|outcomes| - 1];
      PlansIn(outcomes[..|outcomes| - 1]) + (if last.Accepted? then [last.plan] else [])
  }

  function ViolationsIn(phases: seq<Phase>, outcomes: seq<Outcome>): seq<Violation>
    requires |phases| == |outcomes|
  {
    if outcomes == [] then []
    else
      var n := |outcomes| - 1;
      ViolationsIn(phases[..n], outcomes[..n])
      + (if outcomes[n].Refused? then [Violation(phases[n].findingId, outcomes[n].reason)] else [])
  }

  lemma OutcomesSnoc(phases: seq<Phase>, outcomes: seq<Outcome>, i: nat)
    requires i < |outcomes| == |phases|
    ensures PlansIn(outcomes[..i + 1]) ==
      if outcomes[i].Accepted? then PlansIn(outcomes[..i]) + [outcomes[i].plan] else PlansIn(outcomes[..i])
    ensures ViolationsIn(phases[..i + 1], outcomes[..i + 1]) ==
      if outcomes[i].Refused? then ViolationsIn(phases[..i], outcomes[..i]) + [Violation(phases[i].findingId, outcomes[i].reason)]
      else ViolationsIn(phases[..i], outcomes[..i])
  {
    assert outcomes[..i + 1][..i] == outcomes[..i] && phases[..i + 1][..i] == phases[..i];
  }

  lemma SeenSnoc(phases: seq<Phase>, i: nat)
    requires i < |phases|
    ensures SeenIds(phases[..i + 1]) == SeenIds(phases[..i]) + {phases[i].findingId}
  {
    assert phases[..i + 1] == phases[..i] + [phases[i]];
  }

  method CheckNext(rules: Rules, e: Envelope, read: set<string>, i: nat, seen: set<string>, ghost outcomes: seq<Outcome>)
    returns (outcome: Outcome)
    requires outcomes == Outcomes(rules, e, read) && i < |e.repairPlan| && seen == SeenIds(e.repairPlan[..i])
    ensures outcome == outcomes[i]
  {
    outcome := Check(rules, e.findings, read, seen, e.repairPlan[i]);
  }

  method BuildExecutableRepairPlan(rules: Rules, e: Envelope, read: set<string>)
    returns (plans: seq<Plan>, violations: seq<Violation>)
    ensures plans == PlansIn(Outcomes(rules, e, read))
    ensures violations == ViolationsIn(e.repairPlan, Outcomes(rules, e, read))
  {
    ghost var outcomes := Outcomes(rules, e, read);
    plans, violations := [], [];
    var seen := {};
    for i := 0 to |e.repairPlan|
      invariant seen == SeenIds(e.repairPlan[..i])
      invariant plans == PlansIn(outcomes[..i]) && violations == ViolationsIn(e.repairPlan[..i], outcomes[..i])
    {
      var phase := e.repairPlan[i];
      var outcome := CheckNext(rules, e, read, i, seen, outcomes);
      SeenSnoc(e.repairPlan, i);
      OutcomesSnoc(e.repairPlan, outcomes, i);
      if outcome.Accepted? {
        plans := plans + [outcome.plan];
      } else {
        violations := violations + [Violation(phase.findingId, outcome.reason)];
      }
      seen := seen + {phase.findingId};
    }
    assert e.repairPlan[..|e.repairPlan|] == e.repairPlan && outcomes[..|outcomes|] == outcomes;
  }

  lemma {:induction false} PlanHasOutcome(outcomes: seq<Outcome>, k: nat) returns (i: nat)
    requires k < |PlansIn(outcomes)|
    ensures i < |outcomes| && outcomes[i] == Accepted(PlansIn(outcomes)[k]) && k == |PlansIn(outcomes[..i])|
  {
    var n := |outcomes| - 1;
    if k < |PlansIn(outcomes[..n])| {
      i := PlanHasOutcome(outcomes[..n], k);
      assert outcomes[..n][..i] == outcomes[..i];
    } else {
      i := n;
    }
  }

  lemma {:induction false} EveryPhaseIsAccounted(phases: seq<Phase>, outcomes: seq<Outcome>)
    requires |phases| == |outcomes|
    ensures |PlansIn(outcomes)| + |ViolationsIn(phases, outcomes)| == |phases|
  {
    if outcomes != [] {
      EveryPhaseIsAccounted(phases[..|phases| - 1], outcomes[..|outcomes| - 1]);
    }
  }

  lemma {:induction false} PlansGrow(outcomes: seq<Outcome>, m: nat, n: nat)
    requires m <= n <= |outcomes|
    ensures |PlansIn(outcomes[..m])| <= |PlansIn(outcomes[..n])|
  {
    if m < n {
      PlansGrow(outcomes, m, n - 1);
      assert outcomes[..n][..n - 1] == outcomes[..n - 1];
    }
  }

  lemma PlansComeInOrder(outcomes: seq<Outcome>, k: nat, l: nat) returns (i: nat, j: nat)
    requires k < l < |PlansIn(outcomes)|
    ensures i < j < |outcomes|
    ensures outcomes[i] == Accepted(PlansIn(outcomes)[k]) && outcomes[j] == Accepted(PlansIn(outcomes)[l])
  {
    i := PlanHasOutcome(outcomes, k);
    j := PlanHasOutcome(outcomes, l);
    if j <= i {
      PlansGrow(outcomes, j, i);
    }
  }

  /** An accepted phase is the first with its finding. */
  lemma AcceptedOnce(rules: Rules, e: Envelope, read: set<string>, i: nat, j: nat)
    requires i < j < |e.repairPlan| && OutcomeAt(rules, e, read, i).Accepted? && OutcomeAt(rules, e, read, j).Accepted?
    ensures OutcomeAt(rules, e, read, i).plan.findingId != OutcomeAt(rules, e, read, j).plan.findingId
  {
    assert e.repairPlan[..j][i].findingId in SeenIds(e.repairPlan[..j]);
  }

  lemma OnePlanPerFinding(rules: Rules, e: Envelope, read: set<string>, k: nat, l: nat)
    requires k < l < |PlansIn(Outcomes(rules, e, read))|
    ensures PlansIn(Outcomes(rules, e, read))[k].findingId != PlansIn(Outcomes(rules, e, read))[l].findingId
  {
    var i, j := PlansComeInOrder(Outcomes(rules, e, read), k, l);
    AcceptedOnce(rules, e, read, i, j);
  }

  lemma PlanIsExecutable(rules: Rules, e: Envelope, read: set<string>, k: nat)
    requires k < |PlansIn(Outcomes(rules, e, read))|
    ensures Executable(rules, e, read, PlansIn(Outcomes(rules, e, read))[k])
  {
    var i := PlanHasOutcome(Outcomes(rules, e, read), k);
    AcceptedIsExecutable(rules, e, read, i);
  }

  /** What crosses into execution: a phase is accepted exactly when it deserves to be, every phase is
      accounted for once, every plan is executable, and no finding has two. */
  lemma RepairPlanIsSafe(rules: Rules, e: Envelope, read: set<string>)
    ensures var outcomes := Outcomes(rules, e, read);
      var plans := PlansIn(outcomes);
      && (forall i :: 0 <= i < |outcomes| ==> (outcomes[i].Accepted? <==> Deserves(rules, e, read, i)))
      && |plans| + |ViolationsIn(e.repairPlan, outcomes)| == |e.repairPlan|
      && (forall k :: 0 <= k < |plans| ==> Executable(rules, e, read, plans[k]))
      && (forall k, l :: 0 <= k < l < |plans| ==> plans[k].findingId != plans[l].findingId)
  {
    var outcomes := Outcomes(rules, e, read);
    EveryPhaseIsAccounted(e.repairPlan, outcomes);
    forall i | 0 <= i < |outcomes| ensures outcomes[i].Accepted? <==> Deserves(rules, e, read, i) {
      AcceptedIff(rules, e, read, i);
    }
    forall k | 0 <= k < |PlansIn(outcomes)| {
      PlanIsExecutable(rules, e, read, k);
    }
    forall k, l | 0 <= k < l < |PlansIn(outcomes)| {
      OnePlanPerFinding(rules, e, read, k, l);
    }
  }

  /** On a merged envelope no phase is ever refused for an unknown finding. */
  lemma MergedPlansAreKnown(rules: Rules, packets: seq<Packet>, read: set<string>, i: nat)
    requires i < |Published(MergeAll(packets)).repairPlan|
    ensures OutcomeAt(rules, Published(MergeAll(packets)), read, i) != Refused(UnknownFinding)
  {
    PlanPointsToFindings(packets, i);
  }
}
