/** `trimContextToFit`: section-aware passes over a context until its estimated size fits, then a hard
    pass for unusually small limits (context-compressor.ts:14-26, 119-222). */
module ContextTrimming {
  import opened Options
  import opened TextCompaction

  /** `Sized` is the context health table, counted by its serialized length; `Other` costs nothing. */
  datatype FieldValue = Text(s: string) | Sized(cost: nat) | Other
  datatype Field = Field(key: string, value: FieldValue)

  const PRIORITY: seq<string> := ["graphSummary", "workflows", "recentTasks", "recentEvents", "latestMetrics"]
  const SOFT_FLOOR: nat := 200
  const MAX_PASSES: nat := 64

  ghost predicate UniqueKeys(c: seq<Field>) { forall i, j :: 0 <= i < j < |c| ==> c[i].key != c[j].key }

  function Cost(v: FieldValue): nat {
    match v
    case Text(s) => |s|
    case Sized(cost) => cost
    case Other => 0
  }

  function EstimateContextSize(c: seq<Field>): nat {
    if c == [] then 0 else Cost(c[0].value) + EstimateContextSize(c[1..])
  }

  function TextLength(f: Field): nat { if f.value.Text? then |f.value.s| else 0 }

  lemma {:induction false} SizeOfUpdate(c: seq<Field>, k: nat, f: Field)
    requires k < |c|
    ensures EstimateContextSize(c[k := f]) == EstimateContextSize(c) - Cost(c[k].value) + Cost(f.value)
  {
    if k == 0 {
      assert c[k := f][1..] == c[1..];
    } else {
      assert c[k := f][1..] == c[1..][k - 1 := f];
      SizeOfUpdate(c[1..], k - 1, f);
    }
  }

  /** Each field has its own compactor. */
  function Compacted(text: string, key: string, maxChars: nat): string {
    if key == "graphSummary" then CompactGraphSummary(text, maxChars)
    else if key == "workflows" then CompactWorkflowSummary(text, maxChars)
    else TrimAtBoundary(text, maxChars)
  }

  method CompactField(text: string, key: string, maxChars: nat) returns (r: string)
    ensures r == Compacted(text, key, maxChars) && |r| <= maxChars
    ensures |text| <= maxChars ==> r == text
  {
    if key == "graphSummary" {
      r := CompactGraph(text, maxChars);
      GraphNeverExceeds(text, maxChars);
    } else if key == "workflows" {
      r := CompactWorkflowSummary(text, maxChars);
      WorkflowNeverExceeds(text, maxChars);
    } else {
      r := TrimAtBoundary(text, maxChars);
      TrimFacts(text, maxChars);
    }
  }

  function Shortened(f: Field, maxChars: nat): Field
    requires f.value.Text?
  {
    Field(f.key, Text(Compacted(f.value.s, f.key, maxChars)))
  }

  // ---- The order in which fields are considered ----

  function Position(c: seq<Field>, key: string): (r: Option<nat>)
    ensures r.Some? ==> r.value < |c| && c[r.value].key == key
    ensures r.None? ==> forall k :: 0 <= k < |c| ==> c[k].key != key
  {
    if c == [] then None
    else if c[|c| - 1].key == key then Some(|c| - 1)
    else Position(c[..|c| - 1], key)
  }

  predicate IsPriority(f: Field) { f.key in PRIORITY }

  function PriorityPositions(c: seq<Field>, keys: seq<string>): (r: seq<nat>)
    ensures forall i :: 0 <= i < |r| ==> r[i] < |c|
  {
    if keys == [] then []
    else
      var p := Position(c, keys[0]);
      (if p.Some? then [p.value] else []) + PriorityPositions(c, keys[1..])
  }

  lemma {:induction false} PriorityPositionsFacts(c: seq<Field>, keys: seq<string>)
    requires UniqueKeys(c)
    ensures forall p :: p in PriorityPositions(c, keys) <==> 0 <= p < |c| && c[p].key in keys
  {
    if keys != [] {
      PriorityPositionsFacts(c, keys[1..]);
      var p := Position(c, keys[0]);
      var rest := PriorityPositions(c, keys[1..]);
      forall q ensures q in PriorityPositions(c, keys) <==> 0 <= q < |c| && c[q].key in keys {
        assert q in PriorityPositions(c, keys) <==> (p.Some? && q == p.value) || q in rest;
      }
    }
  }

  function OtherPositions(c: seq<Field>, n: nat): (r: seq<nat>)
    requires n <= |c|
    ensures forall i :: 0 <= i < |r| ==> r[i] < n && !IsPriority(c[r[i]])
    ensures forall k :: 0 <= k < n && !IsPriority(c[k]) ==> k in r
  {
    if n == 0 then []
    else OtherPositions(c, n - 1) + (if IsPriority(c[n - 1]) then [] else [n - 1])
  }

  /** The bulk sections first, then every other field in context order. */
  function Order(c: seq<Field>): (r: seq<nat>)
    ensures forall i :: 0 <= i < |r| ==> r[i] < |c|
  {
    PriorityPositions(c, PRIORITY) + OtherPositions(c, |c|)
  }

  lemma OrderCovers(c: seq<Field>)
    requires UniqueKeys(c)
    ensures forall k :: 0 <= k < |c| ==> k in Order(c)
    ensures forall i, j :: 0 <= i < j < |Order(c)| && IsPriority(c[Order(c)[j]]) ==> IsPriority(c[Order(c)[i]])
  {
    var first, others := PriorityPositions(c, PRIORITY), OtherPositions(c, |c|);
    PriorityPositionsFacts(c, PRIORITY);
    forall k | 0 <= k < |c| ensures k in Order(c) {
      assert k in first || k in others;
    }
    forall i, j | 0 <= i < j < |Order(c)| && IsPriority(c[Order(c)[j]]) ensures IsPriority(c[Order(c)[i]]) {
      assert j < |first|;
      assert first[i] in first;
    }
  }

  /** First field of the order longer than the soft floor. */
  function FirstLong(c: seq<Field>, order: seq<nat>): (r: Option<nat>)
    requires forall i :: 0 <= i < |order| ==> order[i] < |c|
    ensures r.Some? ==> r.value < |c| && TextLength(c[r.value]) > SOFT_FLOOR
  {
    if order == [] then None
    else if TextLength(c[order[0]]) > SOFT_FLOOR then Some(order[0])
    else FirstLong(c, order[1..])
  }

  method SoftTarget(c: seq<Field>, order: seq<nat>) returns (r: Option<nat>)
    requires forall i :: 0 <= i < |order| ==> order[i] < |c|
    requires forall i, j :: 0 <= i < j < |order| && IsPriority(c[order[j]]) ==> IsPriority(c[order[i]])
    ensures r == FirstLong(c, order)
    ensures r.Some? && !IsPriority(c[r.value]) ==>
      forall i :: 0 <= i < |order| && IsPriority(c[order[i]]) ==> TextLength(c[order[i]]) <= SOFT_FLOOR
    ensures r.None? ==> forall i :: 0 <= i < |order| ==> TextLength(c[order[i]]) <= SOFT_FLOOR
  {
    for i := 0 to |order|
      invariant forall j :: 0 <= j < i ==> TextLength(c[order[j]]) <= SOFT_FLOOR
      invariant FirstLong(c, order) == FirstLong(c, order[i..])
    {
      if TextLength(c[order[i]]) > SOFT_FLOOR {
        return Some(order[i]);
      }
    }
    return None;
  }

  // ---- What trimming may change ----

  /** Same fields in the same order; only texts change, and they only get shorter. */
  ghost predicate Trims(a: seq<Field>, b: seq<Field>) {
    |a| == |b| && forall k :: 0 <= k < |a| ==>
      && a[k].key == b[k].key
      && (!a[k].value.Text? ==> b[k] == a[k])
      && (a[k].value.Text? ==> b[k].value.Text? && |b[k].value.s| <= |a[k].value.s| && (b[k] == a[k] || |b[k].value.s| < |a[k].value.s|))
  }

  /** A field outside the bulk sections is touched only once every bulk section is down to the soft floor. */
  ghost predicate BulkFirst(a: seq<Field>, b: seq<Field>)
    requires |a| == |b|
  {
    (exists k :: 0 <= k < |a| && !IsPriority(a[k]) && b[k] != a[k]) ==>
      forall k :: 0 <= k < |b| && IsPriority(b[k]) ==> TextLength(b[k]) <= SOFT_FLOOR
  }

  ghost predicate Fits(c: seq<Field>, limit: nat) { EstimateContextSize(c) <= limit }

  ghost predicate AllTiny(c: seq<Field>) { forall k :: 0 <= k < |c| ==> TextLength(c[k]) <= 1 }

  lemma TrimsStep(a: seq<Field>, b: seq<Field>, k: nat, s: string)
    requires Trims(a, b) && k < |b| && b[k].value.Text? && |s| < |b[k].value.s|
    ensures Trims(a, b[k := Field(b[k].key, Text(s))])
  {
  }

  lemma BulkFirstStep(a: seq<Field>, b: seq<Field>, k: nat, f: Field)
    requires |a| == |b| && BulkFirst(a, b) && k < |b| && f.key == b[k].key && TextLength(f) <= TextLength(b[k])
    requires forall m :: 0 <= m < |a| ==> a[m].key == b[m].key
    requires !IsPriority(b[k]) ==> forall m :: 0 <= m < |b| && IsPriority(b[m]) ==> TextLength(b[m]) <= SOFT_FLOOR
    ensures BulkFirst(a, b[k := f])
  {
    var c := b[k := f];
    if m :| 0 <= m < |a| && !IsPriority(a[m]) && c[m] != a[m] {
      if m != k {
        assert b[m] != a[m];
      }
    }
  }

  function SoftLength(length: nat): nat {
    var share := Percent(length, 65);
    if share < SOFT_FLOOR then SOFT_FLOOR else share
  }

  /** The soft passes as a whole: at most `passes` times the first long field of the order is
      shortened, until the context fits or no field is long. */
  function SoftResult(c: seq<Field>, order: seq<nat>, limit: nat, passes: nat): (r: seq<Field>)
    requires forall i :: 0 <= i < |order| ==> order[i] < |c|
    ensures |r| == |c|
    decreases passes
  {
    var target := FirstLong(c, order);
    if passes == 0 || EstimateContextSize(c) <= limit || target.None? then c
    else
      var k := target.value;
      SoftResult(c[k := Shortened(c[k], SoftLength(TextLength(c[k])))], order, limit, passes - 1)
  }

  /** One soft pass strictly shortens its target, and so the whole context. */
  method SoftPass(c: seq<Field>, k: nat) returns (next: seq<Field>)
    requires k < |c| && c[k].value.Text? && |c[k].value.s| > SOFT_FLOOR
    ensures next == c[k := Shortened(c[k], SoftLength(TextLength(c[k])))]
    ensures |next[k].value.s| < |c[k].value.s|
    ensures EstimateContextSize(next) < EstimateContextSize(c)
  {
    var current := c[k].value.s;
    var share := Percent(|current|, 65);
    var nextLength := if share < SOFT_FLOOR then SOFT_FLOOR else share;
    SixtyFivePercent(|current|);
    var s := CompactField(current, c[k].key, nextLength);
    next := c[k := Field(c[k].key, Text(s))];
    SizeOfUpdate(c, k, next[k]);
  }

  lemma SixtyFivePercent(n: nat)
    ensures n > 0 ==> Percent(n, 65) < n
  {
  }

  method SoftPasses(context: seq<Field>, order: seq<nat>, limit: nat) returns (trimmed: seq<Field>)
    requires UniqueKeys(context) && order == Order(context)
    requires forall i :: 0 <= i < |order| ==> order[i] < |context|
    ensures trimmed == SoftResult(context, order, limit, MAX_PASSES)
    ensures Trims(context, trimmed) && BulkFirst(context, trimmed)
  {
    trimmed := context;
    var total := EstimateContextSize(trimmed);
    var pass := 0;
    OrderCovers(context);
    while pass < MAX_PASSES && total > limit
      invariant Trims(context, trimmed) && BulkFirst(context, trimmed)
      invariant total == EstimateContextSize(trimmed) && 0 <= pass <= MAX_PASSES
      invariant SoftResult(context, order, limit, MAX_PASSES) == SoftResult(trimmed, order, limit, MAX_PASSES - pass)
      decreases MAX_PASSES - pass
    {
      var target := SoftTarget(trimmed, order);
      if target.None? {
        break;
      }
      var k := target.value;
      var next := SoftPass(trimmed, k);
      TrimsStep(context, trimmed, k, next[k].value.s);
      SoftStepBulkFirst(context, trimmed, order, k, next[k]);
      trimmed := next;
      total := EstimateContextSize(trimmed);
      pass := pass + 1;
    }
  }

  lemma SoftStepBulkFirst(context: seq<Field>, trimmed: seq<Field>, order: seq<nat>, k: nat, f: Field)
    requires UniqueKeys(context) && order == Order(context) && Trims(context, trimmed) && BulkFirst(context, trimmed)
    requires k < |trimmed| && f.key == trimmed[k].key && TextLength(f) <= TextLength(trimmed[k])
    requires !IsPriority(trimmed[k]) ==>
      forall i :: 0 <= i < |order| && order[i] < |trimmed| && IsPriority(trimmed[order[i]]) ==> TextLength(trimmed[order[i]]) <= SOFT_FLOOR
    ensures BulkFirst(context, trimmed[k := f])
  {
    OrderCovers(context);
    if !IsPriority(trimmed[k]) {
      forall m | 0 <= m < |trimmed| && IsPriority(trimmed[m]) ensures TextLength(trimmed[m]) <= SOFT_FLOOR {
        assert m in order;
      }
    }
    BulkFirstStep(context, trimmed, k, f);
  }

  /** What is left of a text once the whole excess is taken from it, one character at least. */
  function HardLength(c: seq<Field>, k: nat, limit: nat): nat
    requires k < |c|
  {
    var left := TextLength(c[k]) - (EstimateContextSize(c) - limit);
    if left < 1 then 1 else left
  }

  /** The hard passes as a whole: one on each candidate in turn, until the context fits. */
  function HardResult(c: seq<Field>, candidates: seq<nat>, limit: nat): seq<Field>
    requires forall i :: 0 <= i < |candidates| ==> candidates[i] < |c| && c[candidates[i]].value.Text?
    decreases |candidates|
  {
    if candidates == [] || EstimateContextSize(c) <= limit then c
    else
      var k := candidates[0];
      HardResult(c[k := Shortened(c[k], HardLength(c, k, limit))], candidates[1..], limit)
  }

  /** One hard pass: afterwards the context fits, or its target is down to one character. */
  method HardPass(c: seq<Field>, k: nat, limit: nat) returns (next: seq<Field>)
    requires k < |c| && c[k].value.Text? && EstimateContextSize(c) > limit
    ensures next == c[k := Shortened(c[k], HardLength(c, k, limit))]
    ensures next[k] == c[k] || |next[k].value.s| < |c[k].value.s|
    ensures EstimateContextSize(next) <= EstimateContextSize(c)
    ensures EstimateContextSize(next) <= limit || |next[k].value.s| <= 1
  {
    var current := c[k].value.s;
    var excess := EstimateContextSize(c) - limit;
    var nextLength := if |current| - excess < 1 then 1 else |current| - excess;
    var s := CompactField(current, c[k].key, nextLength);
    next := c[k := Field(c[k].key, Text(s))];
    SizeOfUpdate(c, k, next[k]);
  }

  /** The candidates of the hard pass are chosen once, before it starts. */
  function HardCandidates(c: seq<Field>, order: seq<nat>): (r: seq<nat>)
    requires forall i :: 0 <= i < |order| ==> order[i] < |c|
    ensures forall k :: k in r <==> k in order && TextLength(c[k]) > 0
    ensures forall i :: 0 <= i < |r| ==> r[i] in r && r[i] < |c| && c[r[i]].value.Text?
  {
    if order == [] then []
    else
      var rest := HardCandidates(c, order[1..]);
      assert order == [order[0]] + order[1..];
      if TextLength(c[order[0]]) > 0 then [order[0]] + rest else rest
  }

  /** The members of `first` stand before all other elements of `ks`. */
  ghost predicate Leads(ks: seq<nat>, first: set<nat>) {
    forall i, j :: 0 <= i < j < |ks| && ks[j] in first ==> ks[i] in first
  }

  lemma {:induction false} CandidatesKeepOrder(c: seq<Field>, order: seq<nat>, first: set<nat>)
    requires forall i :: 0 <= i < |order| ==> order[i] < |c|
    requires Leads(order, first)
    ensures Leads(HardCandidates(c, order), first)
  {
    if order != [] {
      var rest := HardCandidates(c, order[1..]);
      CandidatesKeepOrder(c, order[1..], first);
      forall k | k in rest && k in first ensures order[0] in first {
        assert k in order[1..];
        var t :| 0 <= t < |order| - 1 && order[1..][t] == k;
        assert order[t + 1] == k;
      }
      LeadsCons(order[0], rest, first);
    }
  }

  lemma LeadsCons(k: nat, rest: seq<nat>, first: set<nat>)
    requires Leads(rest, first) && forall m :: m in rest && m in first ==> k in first
    ensures Leads([k] + rest, first)
  {
  }

  ghost function BulkPositions(c: seq<Field>): set<nat> { set k: nat | k < |c| && IsPriority(c[k]) }

  /** The state of the hard passes after `i` candidates. */
  ghost predicate HardState(context: seq<Field>, soft: seq<Field>, trimmed: seq<Field>, candidates: seq<nat>, i: nat, limit: nat) {
    && Trims(context, trimmed) && BulkFirst(context, trimmed) && Trims(soft, trimmed)
    && (forall j :: 0 <= j < |candidates| ==> candidates[j] < |trimmed| && trimmed[candidates[j]].value.Text?)
    && (EstimateContextSize(trimmed) > limit ==>
          forall j :: 0 <= j < i && j < |candidates| ==> TextLength(trimmed[candidates[j]]) <= 1)
  }

  method HardMove(trimmed: seq<Field>, candidates: seq<nat>, i: nat, limit: nat,
                  ghost context: seq<Field>, ghost soft: seq<Field>) returns (next: seq<Field>)
    requires Trims(context, soft) && i < |candidates| && Leads(candidates, BulkPositions(context))
    requires forall m :: 0 <= m < |soft| && TextLength(soft[m]) > 0 ==> m in candidates
    requires HardState(context, soft, trimmed, candidates, i, limit) && EstimateContextSize(trimmed) > limit
    ensures HardState(context, soft, next, candidates, i + 1, limit)
    ensures HardResult(next, candidates[i + 1..], limit) == HardResult(trimmed, candidates[i..], limit)
  {
    next := HardPass(trimmed, candidates[i], limit);
    HardStep(context, soft, trimmed, candidates, i, limit, next);
    HardResultStep(trimmed, candidates, i, limit);
  }

  method HardPasses(context: seq<Field>, soft: seq<Field>, order: seq<nat>, limit: nat) returns (trimmed: seq<Field>)
    requires UniqueKeys(context) && order == Order(context)
    requires Trims(context, soft) && BulkFirst(context, soft) && EstimateContextSize(soft) > limit
    requires forall i :: 0 <= i < |order| ==> order[i] < |soft|
    ensures trimmed == HardResult(soft, HardCandidates(soft, order), limit)
    ensures Trims(context, trimmed) && BulkFirst(context, trimmed)
    ensures Fits(trimmed, limit) || AllTiny(trimmed)
  {
    trimmed := soft;
    OrderCovers(context);
    var candidates := HardCandidates(soft, order);
    HardStart(context, soft, order, limit);
    HardOrder(context, soft, order);
    CandidatesCover(context, soft, order);
    var i := 0;
    while i < |candidates| && EstimateContextSize(trimmed) > limit
      invariant 0 <= i <= |candidates|
      invariant HardState(context, soft, trimmed, candidates, i, limit)
      invariant HardResult(soft, candidates, limit) == HardResult(trimmed, candidates[i..], limit)
    {
      trimmed := HardMove(trimmed, candidates, i, limit, context, soft);
      i := i + 1;
    }
    if EstimateContextSize(trimmed) > limit {
      HardExhausted(context, soft, trimmed, order, candidates);
    }
  }

  lemma HardResultStep(c: seq<Field>, candidates: seq<nat>, i: nat, limit: nat)
    requires forall j :: 0 <= j < |candidates| ==> candidates[j] < |c| && c[candidates[j]].value.Text?
    requires i < |candidates| && EstimateContextSize(c) > limit
    ensures var k := candidates[i];
      HardResult(c, candidates[i..], limit) ==
      HardResult(c[k := Shortened(c[k], HardLength(c, k, limit))], candidates[i + 1..], limit)
  {
    assert candidates[i..][1..] == candidates[i + 1..];
  }

  lemma HardStart(context: seq<Field>, soft: seq<Field>, order: seq<nat>, limit: nat)
    requires UniqueKeys(context) && order == Order(context) && Trims(context, soft) && BulkFirst(context, soft)
    requires forall i :: 0 <= i < |order| ==> order[i] < |soft|
    ensures HardState(context, soft, soft, HardCandidates(soft, order), 0, limit)
  {
    assert Trims(soft, soft);
  }

  lemma HardTiny(trimmed: seq<Field>, candidates: seq<nat>, i: nat, limit: nat, next: seq<Field>)
    requires i < |candidates| && forall j :: 0 <= j < |candidates| ==> candidates[j] < |trimmed| && trimmed[candidates[j]].value.Text?
    requires forall j :: 0 <= j < i ==> TextLength(trimmed[candidates[j]]) <= 1
    requires var k := candidates[i];
      && |next| == |trimmed| && next == trimmed[k := next[k]] && next[k].value.Text?
      && TextLength(next[k]) <= TextLength(trimmed[k])
      && (EstimateContextSize(next) <= limit || TextLength(next[k]) <= 1)
    ensures forall j :: 0 <= j < |candidates| ==> next[candidates[j]].value.Text?
    ensures EstimateContextSize(next) > limit ==> forall j :: 0 <= j < i + 1 ==> TextLength(next[candidates[j]]) <= 1
  {
    var k := candidates[i];
    forall j | 0 <= j < |candidates|
      ensures next[candidates[j]].value.Text?
      ensures EstimateContextSize(next) > limit && j < i + 1 ==> TextLength(next[candidates[j]]) <= 1
    {
      if candidates[j] != k {
        assert next[candidates[j]] == trimmed[candidates[j]];
      }
    }
  }

  lemma HardStep(context: seq<Field>, soft: seq<Field>, trimmed: seq<Field>, candidates: seq<nat>, i: nat,
                 limit: nat, next: seq<Field>)
    requires Trims(context, soft) && i < |candidates| && Leads(candidates, BulkPositions(context))
    requires forall m :: 0 <= m < |soft| && TextLength(soft[m]) > 0 ==> m in candidates
    requires HardState(context, soft, trimmed, candidates, i, limit) && EstimateContextSize(trimmed) > limit
    requires var k := candidates[i];
      && |next| == |trimmed| && next == trimmed[k := next[k]] && next[k].key == trimmed[k].key && next[k].value.Text?
      && (next[k] == trimmed[k] || |next[k].value.s| < |trimmed[k].value.s|)
      && (EstimateContextSize(next) <= limit || |next[k].value.s| <= 1)
    ensures HardState(context, soft, next, candidates, i + 1, limit)
  {
    var k := candidates[i];
    HardTiny(trimmed, candidates, i, limit, next);
    if next[k] == trimmed[k] {
      assert next == trimmed;
    } else {
      HardStepBulkFirst(context, soft, trimmed, candidates, i, next[k]);
      TrimsStep(context, trimmed, k, next[k].value.s);
      TrimsStep(soft, trimmed, k, next[k].value.s);
      assert next[k] == Field(trimmed[k].key, Text(next[k].value.s));
    }
  }

  lemma CandidatesCover(context: seq<Field>, soft: seq<Field>, order: seq<nat>)
    requires UniqueKeys(context) && order == Order(context) && Trims(context, soft)
    requires forall i :: 0 <= i < |order| ==> order[i] < |soft|
    ensures forall m :: 0 <= m < |soft| && TextLength(soft[m]) > 0 ==> m in HardCandidates(soft, order)
  {
    OrderCovers(context);
  }

  lemma HardOrder(context: seq<Field>, soft: seq<Field>, order: seq<nat>)
    requires UniqueKeys(context) && order == Order(context) && Trims(context, soft)
    requires forall i :: 0 <= i < |order| ==> order[i] < |soft|
    ensures Leads(HardCandidates(soft, order), BulkPositions(context))
  {
    OrderCovers(context);
    CandidatesKeepOrder(soft, order, BulkPositions(context));
  }

  /** A bulk section is already tiny when the hard pass reaches a field outside the bulk sections. */
  lemma BulkAlreadyTiny(soft: seq<Field>, trimmed: seq<Field>, candidates: seq<nat>, i: nat, first: set<nat>, m: nat)
    requires Trims(soft, trimmed) && i < |candidates| && Leads(candidates, first)
    requires forall j :: 0 <= j < |candidates| ==> candidates[j] < |trimmed|
    requires forall j :: 0 <= j < i ==> TextLength(trimmed[candidates[j]]) <= 1
    requires m < |trimmed| && m in first && candidates[i] !in first
    requires TextLength(soft[m]) > 0 ==> m in candidates
    ensures TextLength(trimmed[m]) <= 1
  {
    if TextLength(soft[m]) > 0 {
      var j :| 0 <= j < |candidates| && candidates[j] == m;
      NotAfter(candidates, i, j, first);
    }
  }

  lemma NotAfter(ks: seq<nat>, i: nat, j: nat, first: set<nat>)
    requires Leads(ks, first) && i < |ks| && j < |ks| && ks[j] in first && ks[i] !in first
    ensures j < i
  {
  }

  lemma HardStepBulkFirst(context: seq<Field>, soft: seq<Field>, trimmed: seq<Field>, candidates: seq<nat>, i: nat, f: Field)
    requires Trims(context, soft) && Trims(soft, trimmed) && Trims(context, trimmed) && BulkFirst(context, trimmed)
    requires i < |candidates| && Leads(candidates, BulkPositions(context))
    requires forall j :: 0 <= j < |candidates| ==> candidates[j] < |trimmed|
    requires forall m :: 0 <= m < |soft| && TextLength(soft[m]) > 0 ==> m in candidates
    requires forall j :: 0 <= j < i ==> TextLength(trimmed[candidates[j]]) <= 1
    requires f.key == trimmed[candidates[i]].key && TextLength(f) <= TextLength(trimmed[candidates[i]])
    ensures BulkFirst(context, trimmed[candidates[i] := f])
  {
    var k := candidates[i];
    if !IsPriority(trimmed[k]) {
      forall m | 0 <= m < |trimmed| && IsPriority(trimmed[m]) ensures TextLength(trimmed[m]) <= SOFT_FLOOR {
        assert m in BulkPositions(context);
        BulkAlreadyTiny(soft, trimmed, candidates, i, BulkPositions(context), m);
      }
    }
    BulkFirstStep(context, trimmed, k, f);
  }

  lemma HardExhausted(context: seq<Field>, soft: seq<Field>, trimmed: seq<Field>, order: seq<nat>, candidates: seq<nat>)
    requires UniqueKeys(context) && order == Order(context) && Trims(context, soft) && Trims(soft, trimmed)
    requires forall i :: 0 <= i < |order| ==> order[i] < |soft|
    requires candidates == HardCandidates(soft, order)
    requires forall j :: 0 <= j < |candidates| ==> TextLength(trimmed[candidates[j]]) <= 1
    ensures AllTiny(trimmed)
  {
    OrderCovers(context);
    forall k | 0 <= k < |trimmed| ensures TextLength(trimmed[k]) <= 1 {
      assert k in order;
      if TextLength(soft[k]) > 0 {
        assert k in candidates;
      }
    }
  }

  /** The trimmed context: soft passes, then hard passes if these were not enough. */
  function TrimmedContext(context: seq<Field>, limit: nat): seq<Field>
  {
    var soft := SoftResult(context, Order(context), limit, MAX_PASSES);
    if EstimateContextSize(soft) <= limit then soft
    else HardResult(soft, HardCandidates(soft, Order(context)), limit)
  }

  /** For every context and limit: a context that fits is returned as it is; otherwise only texts
      change and only get shorter, the bulk sections before all others, and the result fits or has
      no text longer than one character. */
  method TrimContextToFit(context: seq<Field>, maxChars: int) returns (r: seq<Field>)
    requires UniqueKeys(context)
    ensures var limit := if maxChars < 1 then 1 else maxChars;
      && r == TrimmedContext(context, limit) && (Fits(context, limit) ==> r == context)
      && (Fits(r, limit) || AllTiny(r))
    ensures Trims(context, r) && BulkFirst(context, r)
  {
    var limit := if maxChars < 1 then 1 else maxChars;
    if EstimateContextSize(context) <= limit {
      return context;
    }
    var order := Order(context);
    OrderCovers(context);
    r := SoftPasses(context, order, limit);
    if EstimateContextSize(r) > limit {
      r := HardPasses(context, r, order, limit);
    }
  }
}
