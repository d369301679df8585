/** Merging packet-local recovery envelopes (forensic-recovery.ts:131-201). */
module ForensicMerge {
  import opened Options
  import opened Strings

  const MAX_BASIS: nat := 1_200

  /** `text` stands for the prose fields, which the merge copies. */
  datatype Finding = Finding(id: string, files: seq<string>, text: string)
  datatype Phase = Phase(findingId: string, steps: seq<string>, files: Option<seq<string>>, profile: Option<string>)
  datatype Verdict = FindingProven | NoFinding

  /** What iterating a field yields: its items, and then possibly an exception. */
  datatype Reading<T> = Reading(items: seq<T>, throws: bool)

  /** An envelope as received; `basisThrows` is an exception on reading its basis, and "" no basis. */
  datatype Packet = Packet(
    findings: Reading<Finding>, plan: Reading<Phase>, checklist: Reading<string>, basis: string, basisThrows: bool)

  datatype Envelope = Envelope(
    verdict: Verdict, findings: seq<Finding>, repairPlan: seq<Phase>, checklist: seq<string>, basis: string)

  predicate Readable(p: Packet) { !p.findings.throws && !p.plan.throws && !p.checklist.throws && !p.basisThrows }

  // ---- Finding ids ----

  function Digit(n: nat): char
    requires n < 10
  {
    "0123456789"[n]
  }

  function Decimal(n: nat): (r: string)
    ensures r != ""
  {
    if n < 10 then [Digit(n)] else Decimal(n / 10) + [Digit(n % 10)]
  }

  function FindingId(n: nat): string { "F-" + Decimal(n) }

  lemma {:induction false} DecimalIsInjective(a: nat, b: nat)
    requires Decimal(a) == Decimal(b)
    ensures a == b
    decreases a
  {
    var s, t := Decimal(a), Decimal(b);
    assert s[|s| - 1] == Digit(a % 10) && t[|t| - 1] == Digit(b % 10);
    assert s[..|s| - 1] == if a < 10 then "" else Decimal(a / 10);
    assert t[..|t| - 1] == if b < 10 then "" else Decimal(b / 10);
    if a >= 10 && b >= 10 {
      DecimalIsInjective(a / 10, b / 10);
    }
  }

  lemma FindingIdIsInjective(a: nat, b: nat)
    requires FindingId(a) == FindingId(b)
    ensures a == b
  {
    assert FindingId(a)[2..] == Decimal(a) && FindingId(b)[2..] == Decimal(b);
    DecimalIsInjective(a, b);
  }

  // ---- Specification ----

  /** The findings renumbered from `next` on. */
  function Renumbered(findings: seq<Finding>, next: nat): seq<Finding> {
    seq(|findings|, i requires 0 <= i < |findings| => findings[i].(id := FindingId(next + i)))
  }

  /** The position of the last finding with the id: of two findings under one id, the later one counts. */
  function LastWith(findings: seq<Finding>, id: string): (r: Option<nat>)
    ensures r.Some? ==> r.value < |findings| && findings[r.value].id == id
    ensures r.None? ==> forall i :: 0 <= i < |findings| ==> findings[i].id != id
  {
    if findings == [] then None
    else if findings[|findings| - 1].id == id then Some(|findings| - 1)
    else LastWith(findings[..|findings| - 1], id)
  }

  function Relinked(plan: seq<Phase>, findings: seq<Finding>, next: nat): seq<Phase> {
    if plan == [] then []
    else
      var phase := plan[|plan| - 1];
      var at := LastWith(findings, phase.findingId);
      Relinked(plan[..|plan| - 1], findings, next)
      + (if at.Some? then [phase.(findingId := FindingId(next + at.value))] else [])
  }

  /** The shared buffers of the merge. */
  datatype Merged = Merged(findings: seq<Finding>, plan: seq<Phase>, checklist: seq<string>, bases: seq<string>)

  const EMPTY: Merged := Merged([], [], [], [])

  function Included(xs: seq<string>, items: seq<string>): seq<string> {
    if items == [] then xs
    else
      var so := Included(xs, items[..|items| - 1]);
      if items[|items| - 1] in so then so else so + [items[|items| - 1]]
  }

  function MergeOne(m: Merged, p: Packet): Merged {
    if !Readable(p) then m
    else
      var next := |m.findings| + 1;
      Merged(m.findings + Renumbered(p.findings.items, next), m.plan + Relinked(p.plan.items, p.findings.items, next),
             Included(m.checklist, p.checklist.items), if p.basis != "" then m.bases + [p.basis] else m.bases)
  }

  function MergeAll(packets: seq<Packet>): Merged {
    if packets == [] then EMPTY else MergeOne(MergeAll(packets[..|packets| - 1]), packets[|packets| - 1])
  }

  function Clipped(s: string, n: nat): string { if |s| > n then s[..n] else s }

  function Published(m: Merged): Envelope {
    Envelope(if m.findings != [] then FindingProven else NoFinding, m.findings, m.plan, m.checklist,
             Clipped(Join(m.bases, ' '), MAX_BASIS))
  }

  // ---- The merge ----

  /** The id map sends every id to the merged id of the last finding under it. */
  ghost predicate Indexes(ids: map<string, string>, findings: seq<Finding>, next: nat) {
    && (forall id :: id in ids <==> LastWith(findings, id).Some?)
    && (forall id :: id in ids ==> ids[id] == FindingId(next + LastWith(findings, id).value))
  }

  lemma IndexesSnoc(ids: map<string, string>, findings: seq<Finding>, i: nat, next: nat)
    requires i < |findings| && Indexes(ids, findings[..i], next)
    ensures Indexes(ids[findings[i].id := FindingId(next + i)], findings[..i + 1], next)
  {
    assert findings[..i + 1][..i] == findings[..i];
  }

  method RenumberFindings(findings: Reading<Finding>, next: nat)
    returns (renumbered: seq<Finding>, ids: map<string, string>, threw: bool)
    ensures threw == findings.throws
    ensures !threw ==> renumbered == Renumbered(findings.items, next) && Indexes(ids, findings.items, next)
  {
    renumbered, ids, threw := [], map[], findings.throws;
    for i := 0 to |findings.items|
      invariant renumbered == Renumbered(findings.items[..i], next) && Indexes(ids, findings.items[..i], next)
    {
      var finding := findings.items[i];
      var id := FindingId(next + i);
      IndexesSnoc(ids, findings.items, i, next);
      ids := ids[finding.id := id];
      renumbered := renumbered + [finding.(id := id)];
    }
    assert findings.items[..|findings.items|] == findings.items;
  }

  method RelinkPlan(plan: Reading<Phase>, ids: map<string, string>, ghost findings: seq<Finding>, ghost next: nat)
    returns (relinked: seq<Phase>, threw: bool)
    requires Indexes(ids, findings, next)
    ensures threw == plan.throws
    ensures !threw ==> relinked == Relinked(plan.items, findings, next)
  {
    relinked, threw := [], plan.throws;
    for i := 0 to |plan.items|
      invariant relinked == Relinked(plan.items[..i], findings, next)
    {
      var phase := plan.items[i];
      assert plan.items[..i + 1][..i] == plan.items[..i];
      if phase.findingId in ids {
        relinked := relinked + [phase.(findingId := ids[phase.findingId])];
      }
    }
    assert plan.items[..|plan.items|] == plan.items;
  }

  method MergeForensicRecoveryEnvelopes(packets: seq<Packet>) returns (r: Envelope)
    ensures r == Published(MergeAll(packets))
  {
    var next := 1;
    var findings, plan, checklist, bases := [], [], [], [];
    for i := 0 to |packets|
      invariant MergeAll(packets[..i]) == Merged(findings, plan, checklist, bases) && next == |findings| + 1
    {
      var p := packets[i];
      assert packets[..i + 1][..i] == packets[..i];
      var localFindings, ids, threw := RenumberFindings(p.findings, next);
      if threw { continue; }
      var localPlan: seq<Phase>;
      localPlan, threw := RelinkPlan(p.plan, ids, p.findings.items, next);
      if threw || p.checklist.throws || p.basisThrows { continue; }
      findings, plan, next := findings + localFindings, plan + localPlan, next + |localFindings|;
      checklist := IncludeItems(checklist, p.checklist.items);
      if p.basis != "" {
        bases := bases + [p.basis];
      }
    }
    assert packets[..|packets|] == packets;
    r := Published(Merged(findings, plan, checklist, bases));
  }

  method IncludeItems(xs: seq<string>, items: seq<string>) returns (r: seq<string>)
    ensures r == Included(xs, items)
  {
    r := xs;
    for i := 0 to |items|
      invariant r == Included(xs, items[..i])
    {
      assert items[..i + 1][..i] == items[..i];
      if items[i] !in r {
        r := r + [items[i]];
      }
    }
    assert items[..|items|] == items;
  }

  // ---- What the merge keeps ----

  /** Findings are numbered F-1 to F-n, each once. */
  ghost predicate Numbered(findings: seq<Finding>) {
    forall i :: 0 <= i < |findings| ==> findings[i].id == FindingId(i + 1)
  }

  function FindingsOf(p: Packet): seq<Finding> { if Readable(p) then p.findings.items else [] }

  /** The phases that name a finding of their own packet. */
  function Linkable(plan: seq<Phase>, findings: seq<Finding>): seq<Phase> {
    if plan == [] then []
    else
      var phase := plan[|plan| - 1];
      Linkable(plan[..|plan| - 1], findings)
      + (if exists i :: 0 <= i < |findings| && findings[i].id == phase.findingId then [phase] else [])
  }

  function LinkableOf(p: Packet): seq<Phase> { if Readable(p) then Linkable(p.plan.items, p.findings.items) else [] }

  /** Where the findings and the phases of packet `q` begin in the merge. */
  function FindingsBefore(packets: seq<Packet>, q: nat): nat
    requires q <= |packets|
  {
    |Flat(packets[..q], FindingsOf)|
  }

  function PhasesBefore(packets: seq<Packet>, q: nat): nat
    requires q <= |packets|
  {
    |Flat(packets[..q], LinkableOf)|
  }

  /** The l-th linkable phase of packet `q` stands at its place in the merged plan and points to the
      place of the last finding that its own packet has under the id it names. */
  ghost predicate LinkedAt(packets: seq<Packet>, m: Merged, q: nat, l: nat) {
    q < |packets| && l < |LinkableOf(packets[q])| ==>
      PhaseLinked(packets[q], l, m, PhasesBefore(packets, q), FindingsBefore(packets, q))
  }

  /** The same for a packet whose phases begin at `j` and whose findings begin at `k`. */
  predicate PhaseLinked(p: Packet, l: nat, m: Merged, j: nat, k: nat)
    requires l < |LinkableOf(p)|
  {
    var origin := LinkableOf(p)[l];
    var at := LastWith(p.findings.items, origin.findingId);
    at.Some? && PhaseAt(m, j + l, origin, k + at.value, p.findings.items[at.value])
  }

  /** The phase at position `j` of the merge is `origin`, linked to the finding at position `k`, which is `finding`. */
  predicate PhaseAt(m: Merged, j: nat, origin: Phase, k: nat, finding: Finding) {
    && k < |m.findings| && m.findings[k] == finding.(id := FindingId(k + 1))
    && j < |m.plan| && m.plan[j] == origin.(findingId := FindingId(k + 1))
  }

  lemma {:induction false} RelinkedAt(plan: seq<Phase>, findings: seq<Finding>, next: nat, l: nat)
    requires l < |Linkable(plan, findings)|
    ensures |Relinked(plan, findings, next)| == |Linkable(plan, findings)|
    ensures var origin := Linkable(plan, findings)[l];
      var at := LastWith(findings, origin.findingId);
      at.Some? && Relinked(plan, findings, next)[l] == origin.(findingId := FindingId(next + at.value))
  {
    var init := plan[..|plan| - 1];
    RelinkedSize(plan, findings, next);
    RelinkedSize(init, findings, next);
    if l < |Linkable(init, findings)| {
      RelinkedAt(init, findings, next, l);
    }
  }

  lemma {:induction false} RelinkedSize(plan: seq<Phase>, findings: seq<Finding>, next: nat)
    ensures |Relinked(plan, findings, next)| == |Linkable(plan, findings)|
  {
    if plan != [] {
      RelinkedSize(plan[..|plan| - 1], findings, next);
    }
  }

  /** The merge has one finding for each finding and one phase for each linkable phase of a readable packet. */
  lemma {:induction false} MergeSizes(packets: seq<Packet>)
    ensures |MergeAll(packets).findings| == |Flat(packets, FindingsOf)|
    ensures |MergeAll(packets).plan| == |Flat(packets, LinkableOf)|
    ensures Numbered(MergeAll(packets).findings)
  {
    if packets != [] {
      var rest, p := packets[..|packets| - 1], packets[|packets| - 1];
      MergeSizes(rest);
      RelinkedSize(p.plan.items, p.findings.items, |MergeAll(rest).findings| + 1);
    }
  }

  lemma {:induction false} PhaseStays(p: Packet, l: nat, m: Merged, more: Merged, j: nat, k: nat)
    requires l < |LinkableOf(p)| && PhaseLinked(p, l, m, j, k)
    requires m.findings <= more.findings && m.plan <= more.plan
    ensures PhaseLinked(p, l, more, j, k)
  {
  }

  lemma {:induction false} PhaseJoins(m: Merged, p: Packet, l: nat)
    requires l < |LinkableOf(p)|
    ensures PhaseLinked(p, l, MergeOne(m, p), |m.plan|, |m.findings|)
  {
    var next := |m.findings| + 1;
    var added, more := Relinked(p.plan.items, p.findings.items, next), Renumbered(p.findings.items, next);
    RelinkedAt(p.plan.items, p.findings.items, next, l);
    var at := LastWith(p.findings.items, LinkableOf(p)[l].findingId).value;
    JoinedAt(m.plan, added, l);
    JoinedAt(m.findings, more, at);
    assert more[at].id == FindingId(|m.findings| + at + 1);
  }

  lemma JoinedAt<T>(a: seq<T>, b: seq<T>, i: nat)
    requires i < |b|
    ensures (a + b)[|a| + i] == b[i]
  {
  }

  lemma {:induction false} MergeSnoc(rest: seq<Packet>, p: Packet)
    ensures MergeAll(rest + [p]) == MergeOne(MergeAll(rest), p)
    ensures MergeAll(rest).findings <= MergeAll(rest + [p]).findings && MergeAll(rest).plan <= MergeAll(rest + [p]).plan
  {
    assert (rest + [p])[..|rest|] == rest;
  }

  lemma {:induction false} LinkedStays(rest: seq<Packet>, p: Packet, q: nat, l: nat)
    requires q < |rest| && LinkedAt(rest, MergeAll(rest), q, l)
    ensures LinkedAt(rest + [p], MergeAll(rest + [p]), q, l)
  {
    assert (rest + [p])[..q] == rest[..q] && (rest + [p])[q] == rest[q];
    MergeSnoc(rest, p);
    if l < |LinkableOf(rest[q])| {
      PhaseStays(rest[q], l, MergeAll(rest), MergeAll(rest + [p]), PhasesBefore(rest, q), FindingsBefore(rest, q));
    }
  }

  lemma {:induction false} LinkedNow(rest: seq<Packet>, p: Packet, l: nat)
    ensures LinkedAt(rest + [p], MergeAll(rest + [p]), |rest|, l)
  {
    assert (rest + [p])[..|rest|] == rest && (rest + [p])[|rest|] == p;
    MergeSnoc(rest, p);
    MergeSizes(rest);
    if l < |LinkableOf(p)| {
      PhaseJoins(MergeAll(rest), p, l);
    }
  }

  /** The merged findings are numbered without gaps, and the phases that name a finding of their own
      packet stand in order, each pointing to the place of the finding its own packet meant. */
  lemma {:induction false} MergeIsLinked(packets: seq<Packet>)
    ensures var m := MergeAll(packets);
      && Numbered(m.findings) && |m.plan| == |Flat(packets, LinkableOf)|
      && forall q: nat, l: nat :: LinkedAt(packets, m, q, l)
  {
    MergeSizes(packets);
    if packets != [] {
      var rest, p := packets[..|packets| - 1], packets[|packets| - 1];
      MergeIsLinked(rest);
      assert packets == rest + [p];
      forall q: nat, l: nat ensures LinkedAt(packets, MergeAll(packets), q, l) {
        if q < |rest| {
          LinkedStays(rest, p, q, l);
        } else if q == |rest| {
          LinkedNow(rest, p, l);
        }
      }
    }
  }

  /** Phases of different packets never point to the same finding, however alike the packets are. */
  lemma {:induction false} PacketsStayApart(packets: seq<Packet>, q: nat, l: nat, r: nat, k: nat)
    requires q < r < |packets| && l < |LinkableOf(packets[q])| && k < |LinkableOf(packets[r])|
    ensures var plan := MergeAll(packets).plan;
      var i, j := PhasesBefore(packets, q) + l, PhasesBefore(packets, r) + k;
      i < j < |plan| && plan[i].findingId != plan[j].findingId
  {
    FlatGrows(packets, FindingsOf, q, r);
    FlatGrows(packets, LinkableOf, q, r);
    var a := LinkPlace(packets, q, l);
    var b := LinkPlace(packets, r, k);
    if FindingId(a + 1) == FindingId(b + 1) {
      FindingIdIsInjective(a + 1, b + 1);
    }
  }

  lemma {:induction false} LinkPlace(packets: seq<Packet>, q: nat, l: nat) returns (k: nat)
    requires q < |packets| && l < |LinkableOf(packets[q])|
    ensures FindingsBefore(packets, q) <= k < FindingsBefore(packets, q) + |FindingsOf(packets[q])|
    ensures var m, j := MergeAll(packets), PhasesBefore(packets, q) + l;
      j < |m.plan| && m.plan[j].findingId == FindingId(k + 1)
  {
    MergeIsLinked(packets);
    assert LinkedAt(packets, MergeAll(packets), q, l);
    k := FindingsBefore(packets, q) + LastWith(packets[q].findings.items, LinkableOf(packets[q])[l].findingId).value;
  }

  /** Every merged phase points to a merged finding. */
  lemma {:induction false} PlanPointsToFindings(packets: seq<Packet>, j: nat)
    requires j < |MergeAll(packets).plan|
    ensures LastWith(MergeAll(packets).findings, MergeAll(packets).plan[j].findingId).Some?
  {
    MergeSizes(packets);
    var q, l := FlatPlace(packets, LinkableOf, j);
    var k := LinkPlace(packets, q, l);
    FlatGrows(packets, FindingsOf, q, |packets|);
    assert packets[..|packets|] == packets;
    assert MergeAll(packets).findings[k].id == FindingId(k + 1);
  }

  /** No two merged findings share an id. */
  lemma MergedIdsAreDistinct(packets: seq<Packet>, i: nat, j: nat)
    requires i < j < |MergeAll(packets).findings|
    ensures MergeAll(packets).findings[i].id != MergeAll(packets).findings[j].id
  {
    MergeIsLinked(packets);
    if FindingId(i + 1) == FindingId(j + 1) {
      FindingIdIsInjective(i + 1, j + 1);
    }
  }

  function ReadableOnly(packets: seq<Packet>): seq<Packet> {
    if packets == [] then []
    else
      ReadableOnly(packets[..|packets| - 1]) + (if Readable(packets[|packets| - 1]) then [packets[|packets| - 1]] else [])
  }

  /** A packet that fails part-way contributes nothing. */
  lemma {:induction false} FailedPacketsVanish(packets: seq<Packet>)
    ensures MergeAll(packets) == MergeAll(ReadableOnly(packets))
  {
    if packets != [] {
      var rest, p := packets[..|packets| - 1], packets[|packets| - 1];
      FailedPacketsVanish(rest);
      if Readable(p) {
        assert ReadableOnly(packets)[..|ReadableOnly(packets)| - 1] == ReadableOnly(rest);
      } else {
        assert ReadableOnly(packets) == ReadableOnly(rest);
      }
    }
  }

  function WithoutId(f: Finding): Finding { f.(id := "") }

  function ChecklistOf(p: Packet): seq<string> { if Readable(p) then p.checklist.items else [] }

  function WithoutLink(phase: Phase): Phase { phase.(findingId := "") }

  lemma {:induction false} RelinkedKeepsLinkable(plan: seq<Phase>, findings: seq<Finding>, next: nat)
    ensures Mapped(Relinked(plan, findings, next), WithoutLink) == Mapped(Linkable(plan, findings), WithoutLink)
  {
    if plan != [] {
      RelinkedKeepsLinkable(plan[..|plan| - 1], findings, next);
    }
  }

  /** No finding of a readable packet is lost, changed or reordered but for its id, nor any phase that
      names a finding of its packet; the checklist holds every item of those packets once, in order of
      first appearance. */
  lemma {:induction false} MergeConserves(packets: seq<Packet>)
    ensures Mapped(MergeAll(packets).findings, WithoutId) == Mapped(Flat(packets, FindingsOf), WithoutId)
    ensures Mapped(MergeAll(packets).plan, WithoutLink) == Mapped(Flat(packets, LinkableOf), WithoutLink)
    ensures MergeAll(packets).checklist == Distinct(Flat(packets, ChecklistOf))
  {
    if packets != [] {
      var rest, p := packets[..|packets| - 1], packets[|packets| - 1];
      var before := MergeAll(rest);
      MergeConserves(rest);
      MappedAppend(Flat(rest, FindingsOf), FindingsOf(p), WithoutId);
      MappedAppend(Flat(rest, LinkableOf), LinkableOf(p), WithoutLink);
      IncludedIsDistinct(Flat(rest, ChecklistOf), ChecklistOf(p));
      if Readable(p) {
        var added := Renumbered(p.findings.items, |before.findings| + 1);
        MappedAppend(before.findings, added, WithoutId);
        assert Mapped(added, WithoutId) == Mapped(p.findings.items, WithoutId);
        MappedAppend(before.plan, Relinked(p.plan.items, p.findings.items, |before.findings| + 1), WithoutLink);
        RelinkedKeepsLinkable(p.plan.items, p.findings.items, |before.findings| + 1);
      }
    }
  }

  lemma {:induction false} IncludedIsDistinct(xs: seq<string>, items: seq<string>)
    ensures Included(Distinct(xs), items) == Distinct(xs + items)
  {
    if items == [] {
      assert xs + items == xs;
    } else {
      var init, x := items[..|items| - 1], items[|items| - 1];
      IncludedIsDistinct(xs, init);
      assert xs + items == xs + init + [x];
      DistinctSnoc(xs + init, x);
      DistinctFacts(xs + init);
    }
  }
}
