/** What every run of the plan coordinator keeps: the invariants that link the plan, the record of
    its waves and the initial plan, and the lemmas that carry them across one wave. */
module PlanRuns {
  import opened Options
  import opened ExecutionNodes
  import opened PlanBlocking
  import opened PlanWaves
  import opened PlanSettlement

  // ---- How a plan may change ----

  /** Attempts only grow, a terminal node never changes again, and a node that newly runs or
      newly passes without having been running has spent an attempt. */
  ghost predicate NodeEvolves(a: ExecutionNode, b: ExecutionNode) {
    && SameNode(a, b) && a.attempts <= b.attempts
    && (Terminal(a) ==> b == a)
    && ((b.status == Running || b.status == Passed) && !Terminal(a) && a.status != Running ==> a.attempts < b.attempts)
  }

  ghost predicate Evolves(a: seq<ExecutionNode>, b: seq<ExecutionNode>) {
    |a| == |b| && forall k :: 0 <= k < |a| ==> NodeEvolves(a[k], b[k])
  }

  lemma EvolvesTransitive(a: seq<ExecutionNode>, b: seq<ExecutionNode>, c: seq<ExecutionNode>)
    requires Evolves(a, b) && Evolves(b, c)
    ensures Evolves(a, c)
  {
    forall k | 0 <= k < |a| ensures NodeEvolves(a[k], c[k]) {
      assert NodeEvolves(a[k], b[k]) && NodeEvolves(b[k], c[k]);
    }
  }

  // ---- Termination measure ----

  /** What a node can still cost: one step to become terminal and one for each attempt it has left. */
  function Weight(n: ExecutionNode): nat {
    if Terminal(n) then 0
    else 1 + (if n.attempts < AttemptLimit(n) then AttemptLimit(n) - n.attempts else 0)
  }

  function Measure(nodes: seq<ExecutionNode>): nat {
    if nodes == [] then 0 else Weight(nodes[0]) + Measure(nodes[1..])
  }

  lemma {:induction false} MeasureMonotone(a: seq<ExecutionNode>, b: seq<ExecutionNode>)
    requires |a| == |b| && forall k :: 0 <= k < |a| ==> Weight(b[k]) <= Weight(a[k])
    ensures Measure(b) <= Measure(a)
    ensures (exists k :: 0 <= k < |a| && Weight(b[k]) < Weight(a[k])) ==> Measure(b) < Measure(a)
  {
    if a != [] {
      assert forall k :: 0 <= k < |a| - 1 ==> a[1..][k] == a[k + 1] && b[1..][k] == b[k + 1];
      MeasureMonotone(a[1..], b[1..]);
      if k :| 0 <= k < |a| && Weight(b[k]) < Weight(a[k]) {
        if k > 0 {
          assert Weight(b[1..][k - 1]) < Weight(a[1..][k - 1]);
        }
      }
    }
  }

  // ---- The record of the waves ----

  predicate Called(w: Wave, k: nat) { exists c :: 0 <= c < |w.calls| && w.calls[c].pos == k }

  /** A run of node `k` returned `passed` and its completion was authorized. */
  predicate PassedIn(w: Wave, k: nat) {
    exists c :: 0 <= c < |w.calls| && c < |w.completions| && w.calls[c].pos == k
                && w.calls[c].result.Returned? && w.calls[c].result.outcome.status == Passed
                && w.completions[c].allowed
  }

  /** How often `runNode` was called on node `k`. */
  function Runs(waves: seq<Wave>, k: nat): nat {
    if waves == [] then 0
    else Runs(waves[..|waves| - 1], k) + (if Called(waves[|waves| - 1], k) then 1 else 0)
  }

  /** How often a node may still be run: never when it is terminal, when a recovered node is at its
      limit, or when a queued node has spent the schema's three attempts; a queued node at its own
      lower limit still runs once, because the limit is consulted only before a retry. */
  function RunBudget(n: ExecutionNode): nat {
    var left := if n.attempts < AttemptLimit(n) then AttemptLimit(n) - n.attempts else 0;
    match n.status
    case Queued => if n.attempts >= 3 then 0 else if left == 0 then 1 else left
    case Running => left
    case Failed => left
    case Passed => 0
    case Blocked => 0
  }

  /** A call is made on a running node whose dependencies have all passed and whose start, for
      exactly this attempt, was authorized. */
  ghost predicate CallSafe(w: Wave, c: Call) {
    && c.pos < |w.snapshot|
    && var n := w.snapshot[c.pos];
       n.id == c.id && n.status == Running && n.attempts == c.attempt
       && DependenciesPassed(w.snapshot, n)
       && Ask(c.pos, c.attempt, true) in w.asks
  }

  ghost predicate WaveSafe(w: Wave, cap: nat) {
    && 1 <= |w.asks| <= cap && |w.calls| <= |w.asks|
    && (forall c :: 0 <= c < |w.calls| ==> CallSafe(w, w.calls[c]))
    && (forall c, d :: 0 <= c < d < |w.calls| ==>
          w.calls[c].pos != w.calls[d].pos
          && w.snapshot[w.calls[c].pos].files !! w.snapshot[w.calls[d].pos].files)
    && (w.limit.Some? <==> exists c :: 0 <= c < |w.calls| && w.calls[c].result.RateLimited?)
  }

  // ---- One wave ----

  /** The net effect of a wave that was started from `before`, recorded as `w` and left the plan as
      `after`. A wave cancelled while running has `after == w.snapshot`. */
  ghost predicate WaveEffect(before: seq<ExecutionNode>, w: Wave, after: seq<ExecutionNode>) {
    && Evolves(before, w.snapshot) && Evolves(w.snapshot, after)
    && (forall k :: 0 <= k < |before| ==> after[k].attempts == w.snapshot[k].attempts)
    && (forall k :: 0 <= k < |before| ==> after[k].attempts == before[k].attempts + (if Called(w, k) then 1 else 0))
    && (forall k :: 0 <= k < |before| && after[k] != before[k] ==> Ready(before, k))
    && (forall k :: 0 <= k < |before| && after[k].status == Passed && before[k].status != Passed ==> PassedIn(w, k))
    && (forall c :: 0 <= c < |w.calls| ==>
          w.calls[c].pos < |before| && w.calls[c].attempt == before[w.calls[c].pos].attempts + 1)
  }

  /** What a wave that was also settled adds. */
  ghost predicate WaveSettled(before: seq<ExecutionNode>, w: Wave, after: seq<ExecutionNode>)
    requires |after| == |before|
  {
    && (forall k :: 0 <= k < |before| && after[k] != before[k] ==>
          || Terminal(after[k])
          || (after[k].status == Queued && Called(w, k) && !w.limit.Some? && after[k].attempts < AttemptLimit(after[k])))
    && (exists k :: 0 <= k < |before| && after[k] != before[k])
  }

  lemma WaveShrinks(before: seq<ExecutionNode>, w: Wave, after: seq<ExecutionNode>)
    requires WaveEffect(before, w, after) && WaveSettled(before, w, after)
    ensures Measure(after) < Measure(before)
  {
    EvolvesTransitive(before, w.snapshot, after);
    forall k | 0 <= k < |before| && after[k] != before[k] ensures Weight(after[k]) < Weight(before[k]) {
      assert NodeEvolves(before[k], after[k]);
    }
    MeasureMonotone(before, after);
  }

  // ---- Invariants of a run ----

  /** Conservation: the calls made on a node are exactly the attempts it has gained. */
  ghost predicate Accounted(initial: seq<ExecutionNode>, nodes: seq<ExecutionNode>, waves: seq<Wave>) {
    |nodes| == |initial|
    && forall k :: 0 <= k < |nodes| ==> nodes[k].attempts == initial[k].attempts + Runs(waves, k)
  }

  ghost predicate Budgeted(initial: seq<ExecutionNode>, nodes: seq<ExecutionNode>) {
    |nodes| == |initial|
    && forall k :: 0 <= k < |nodes| ==>
         && nodes[k].attempts <= initial[k].attempts + RunBudget(initial[k])
         && (nodes[k].status == Queued && nodes[k].attempts < 3 ==>
               nodes[k].attempts < initial[k].attempts + RunBudget(initial[k]))
  }

  ghost predicate Witnessed(initial: seq<ExecutionNode>, nodes: seq<ExecutionNode>, waves: seq<Wave>) {
    |nodes| == |initial|
    && forall k :: 0 <= k < |nodes| && nodes[k].status == Passed && initial[k].status != Passed ==>
         exists w :: 0 <= w < |waves| && PassedIn(waves[w], k)
  }

  /** Every wave is safe, only the last one may have hit a rate limit, and the plan only evolves
      from the initial plan through the waves to the present. */
  ghost predicate Recorded(recovered: seq<ExecutionNode>, nodes: seq<ExecutionNode>, waves: seq<Wave>, cap: nat) {
    && Evolves(recovered, nodes)
    && (forall w :: 0 <= w < |waves| ==>
          && WaveSafe(waves[w], cap)
          && Evolves(recovered, waves[w].snapshot) && Evolves(waves[w].snapshot, nodes))
    && (forall v, w :: 0 <= v < w < |waves| ==> !waves[v].limit.Some? && Evolves(waves[v].snapshot, waves[w].snapshot))
  }

  /** The failure a checkpoint recorded for a node. */
  function Checkpointed(n: ExecutionNode): Option<PreviousFailure> {
    if n.lastFailure.None? then None
    else Some(PreviousFailure(n.lastFailure.value.attempt, n.lastFailure.value.detail))
  }

  function Lookup(previous: map<string, PreviousFailure>, id: string): Option<PreviousFailure> {
    if id in previous then Some(previous[id]) else None
  }

  /** On its first run in this execution a node is told its checkpointed failure, if any; from its
      second run on, the attempt that just failed. */
  ghost predicate Informed(initial: seq<ExecutionNode>, waves: seq<Wave>) {
    forall w, c :: 0 <= w < |waves| && 0 <= c < |waves[w].calls| ==>
      var call := waves[w].calls[c];
      && call.pos < |initial| && initial[call.pos].attempts < call.attempt
      && (if call.attempt == initial[call.pos].attempts + 1 then call.previous == Checkpointed(initial[call.pos])
          else call.previous.Some? && call.previous.value.attempt == call.attempt - 1)
  }

  ghost predicate PreparedFor(a: ExecutionNode, n: ExecutionNode, previous: map<string, PreviousFailure>) {
    var p := Lookup(previous, n.id);
    if n.attempts == a.attempts then p == Checkpointed(a) else p.Some? && p.value.attempt == n.attempts
  }

  ghost predicate Prepared(initial: seq<ExecutionNode>, nodes: seq<ExecutionNode>, previous: map<string, PreviousFailure>) {
    |nodes| == |initial|
    && forall k :: 0 <= k < |nodes| && nodes[k].status == Queued ==> PreparedFor(initial[k], nodes[k], previous)
  }

  lemma RecordWave(recovered: seq<ExecutionNode>, before: seq<ExecutionNode>, waves: seq<Wave>, cap: nat, w: Wave,
                   after: seq<ExecutionNode>)
    requires Recorded(recovered, before, waves, cap) && WaveSafe(w, cap) && WaveEffect(before, w, after)
    requires forall v :: 0 <= v < |waves| ==> !waves[v].limit.Some?
    ensures Recorded(recovered, after, waves + [w], cap)
  {
    var all := waves + [w];
    EvolvesTransitive(before, w.snapshot, after);
    EvolvesTransitive(recovered, before, after);
    EvolvesTransitive(recovered, before, w.snapshot);
    forall v | 0 <= v < |waves| ensures all[v] == waves[v] && Evolves(waves[v].snapshot, after) && Evolves(waves[v].snapshot, w.snapshot) {
      EvolvesTransitive(waves[v].snapshot, before, after);
      EvolvesTransitive(waves[v].snapshot, before, w.snapshot);
    }
    assert all[|waves|] == w;
  }

  lemma AccountWave(initial: seq<ExecutionNode>, before: seq<ExecutionNode>, waves: seq<Wave>, w: Wave,
                    after: seq<ExecutionNode>)
    requires Accounted(initial, before, waves) && Budgeted(initial, before) && Witnessed(initial, before, waves)
    requires WaveEffect(before, w, after)
    ensures Accounted(initial, after, waves + [w]) && Witnessed(initial, after, waves + [w])
    ensures forall k :: 0 <= k < |after| ==> after[k].attempts <= initial[k].attempts + RunBudget(initial[k])
  {
    var all := waves + [w];
    assert all[..|all| - 1] == waves && all[|all| - 1] == w;
    forall k | 0 <= k < |after| && after[k].status == Passed && initial[k].status != Passed
      ensures exists v :: 0 <= v < |all| && PassedIn(all[v], k)
    {
      if before[k].status == Passed {
        var v :| 0 <= v < |waves| && PassedIn(waves[v], k);
        assert PassedIn(all[v], k);
      } else {
        assert PassedIn(all[|waves|], k);
      }
    }
    forall k | 0 <= k < |after| ensures after[k].attempts <= initial[k].attempts + RunBudget(initial[k]) {
      if Called(w, k) {
        assert after[k] != before[k];
        assert Ready(before, k);
      }
    }
  }

  lemma BudgetWave(initial: seq<ExecutionNode>, before: seq<ExecutionNode>, w: Wave, after: seq<ExecutionNode>)
    requires |initial| == |before| && Budgeted(initial, before) && WaveEffect(before, w, after) && WaveSettled(before, w, after)
    requires forall k :: 0 <= k < |before| ==> SameNode(initial[k], before[k])
    requires forall k :: 0 <= k < |after| ==> after[k].attempts <= initial[k].attempts + RunBudget(initial[k])
    requires forall k :: 0 <= k < |before| ==> before[k].attempts >= initial[k].attempts
    ensures Budgeted(initial, after)
  {
    forall k | 0 <= k < |after| && after[k].status == Queued && after[k].attempts < 3
      ensures after[k].attempts < initial[k].attempts + RunBudget(initial[k])
    {
      if after[k] != before[k] {
        assert NodeEvolves(before[k], w.snapshot[k]) && NodeEvolves(w.snapshot[k], after[k]);
        assert Ready(before, k);
      }
    }
  }

  lemma InformWave(initial: seq<ExecutionNode>, before: seq<ExecutionNode>, waves: seq<Wave>, w: Wave,
                   after: seq<ExecutionNode>, previous: map<string, PreviousFailure>)
    requires Informed(initial, waves) && Prepared(initial, before, previous) && WaveEffect(before, w, after)
    requires forall k :: 0 <= k < |before| ==> before[k].attempts >= initial[k].attempts
    requires forall c :: 0 <= c < |w.calls| ==>
      w.calls[c].pos < |before| && Ready(before, w.calls[c].pos)
      && var n := before[w.calls[c].pos]; w.calls[c].previous == Lookup(previous, n.id)
    ensures Informed(initial, waves + [w])
  {
    var all := waves + [w];
    forall v, c | 0 <= v < |all| && 0 <= c < |all[v].calls|
      ensures var call := all[v].calls[c];
        && call.pos < |initial| && initial[call.pos].attempts < call.attempt
        && (if call.attempt == initial[call.pos].attempts + 1 then call.previous == Checkpointed(initial[call.pos])
            else call.previous.Some? && call.previous.value.attempt == call.attempt - 1)
    {
      if v < |waves| {
        assert all[v] == waves[v];
      } else {
        var call := w.calls[c];
        var n := before[call.pos];
        assert all[v] == w && call.attempt == n.attempts + 1;
        assert PreparedFor(initial[call.pos], n, previous);
      }
    }
  }

  // ---- From the steps of a wave to its net effect ----

  lemma StartedEvolves(env: Environment, before: seq<ExecutionNode>, wave: seq<nat>, t: nat,
                       nodes: seq<ExecutionNode>, asks: seq<Ask>)
    requires Valid(before) && AllReady(before, wave) && StartedUpTo(env, before, wave, |wave|, t, nodes, asks)
    ensures Evolves(before, nodes)
    ensures forall k :: 0 <= k < |nodes| && nodes[k] != before[k] ==> k in wave
    ensures forall k :: 0 <= k < |nodes| && k in wave ==>
      && Ready(before, k) && (nodes[k].status == Running || nodes[k].status == Blocked)
      && nodes[k].attempts == before[k].attempts + (if nodes[k].status == Running then 1 else 0)
  {
    assert wave[..|wave|] == wave;
    forall k | 0 <= k < |nodes|
      ensures NodeEvolves(before[k], nodes[k])
      ensures nodes[k] != before[k] ==> k in wave
      ensures k in wave ==>
        && Ready(before, k) && (nodes[k].status == Running || nodes[k].status == Blocked)
        && nodes[k].attempts == before[k].attempts + (if nodes[k].status == Running then 1 else 0)
    {
      if k in wave {
        var i :| 0 <= i < |wave| && wave[i] == k;
        assert nodes[k] == Started(env, before[k], t + i);
      }
    }
  }

  lemma CalledExactly(env: Environment, snapshot: seq<ExecutionNode>, active: seq<nat>,
                      previous: map<string, PreviousFailure>, t: nat, w: Wave)
    requires forall i :: 0 <= i < |active| ==> active[i] < |snapshot|
    requires w.calls == CallsOf(env, snapshot, active, previous, t)
    ensures forall k: nat :: Called(w, k) <==> k in active
  {
    forall k: nat ensures Called(w, k) <==> k in active {
      if k in active {
        var i :| 0 <= i < |active| && active[i] == k;
        assert w.calls[i].pos == k;
      }
    }
  }

  lemma DependenciesKeepPassing(before: seq<ExecutionNode>, snapshot: seq<ExecutionNode>, k: nat)
    requires Evolves(before, snapshot) && k < |before| && DependenciesPassed(before, before[k])
    ensures DependenciesPassed(snapshot, snapshot[k])
  {
    assert NodeEvolves(before[k], snapshot[k]);
    forall d | d in snapshot[k].dependencies
      ensures exists j :: 0 <= j < |snapshot| && snapshot[j].id == d && snapshot[j].status == Passed
    {
      var j :| 0 <= j < |before| && before[j].id == d && before[j].status == Passed;
      assert NodeEvolves(before[j], snapshot[j]);
    }
  }

  /** `w` records the chosen wave `wave` started from `before`, with its calls issued. */
  ghost predicate Launched(env: Environment, before: seq<ExecutionNode>, wave: seq<nat>, t: nat, w: Wave,
                           active: seq<nat>, previous: map<string, PreviousFailure>, u: nat)
  {
    && Valid(before) && AllReady(before, wave) && Increasing(wave) && DisjointFiles(before, wave)
    && StartedUpTo(env, before, wave, |wave|, t, w.snapshot, w.asks)
    && active == RunningAmong(w.snapshot, wave)
    && w.calls == CallsOf(env, w.snapshot, active, previous, u)
  }

  lemma {:induction false} RunningMember(before: seq<ExecutionNode>, wave: seq<nat>, answers: seq<Authorization>,
                                         nodes: seq<ExecutionNode>, asks: seq<Ask>, k: nat) returns (i: nat)
    requires AllReady(before, wave) && |answers| == |wave| && StartedWith(before, wave, |wave|, answers, nodes, asks)
    requires k in wave && k < |nodes| && nodes[k].status == Running
    ensures i < |wave| == |asks| && wave[i] == k && k < |before| && nodes[k] == Answered(before[k], answers[i])
    ensures asks[i] == Ask(k, before[k].attempts + 1, true)
  {
    i :| 0 <= i < |wave| && wave[i] == k;
    assert Ready(before, wave[i]);
  }

  /** The member of the wave a call belongs to. */
  lemma {:induction false} LaunchedMember(env: Environment, before: seq<ExecutionNode>, wave: seq<nat>, t: nat, w: Wave,
                                          active: seq<nat>, previous: map<string, PreviousFailure>, u: nat, c: nat)
    returns (i: nat)
    requires Launched(env, before, wave, t, w, active, previous, u) && c < |w.calls|
    ensures i < |wave| && wave[i] == active[c] && active[c] < |before| == |w.snapshot| && i < |w.asks|
    ensures var k := active[c];
      && w.snapshot[k].status == Running && w.snapshot[k] == Started(env, before[k], t + i)
      && w.asks[i] == Ask(k, before[k].attempts + 1, true)
  {
    assert active[c] in active;
    i := RunningMember(before, wave, Authorizations(env, before, wave, t), w.snapshot, w.asks, active[c]);
  }

  lemma LaunchedCall(env: Environment, before: seq<ExecutionNode>, wave: seq<nat>, t: nat, w: Wave,
                     active: seq<nat>, previous: map<string, PreviousFailure>, u: nat, c: nat)
    requires Launched(env, before, wave, t, w, active, previous, u) && c < |w.calls|
    ensures CallSafe(w, w.calls[c])
    ensures var call := w.calls[c];
      && call.pos < |before| && Ready(before, call.pos)
      && call.attempt == before[call.pos].attempts + 1
      && call.previous == Lookup(previous, before[call.pos].id)
  {
    var i := LaunchedMember(env, before, wave, t, w, active, previous, u, c);
    assert Ready(before, wave[i]);
    StartedEvolves(env, before, wave, t, w.snapshot, w.asks);
    DependenciesKeepPassing(before, w.snapshot, active[c]);
  }

  lemma LaunchedDisjoint(env: Environment, before: seq<ExecutionNode>, wave: seq<nat>, t: nat, w: Wave,
                         active: seq<nat>, previous: map<string, PreviousFailure>, u: nat, c: nat, d: nat)
    requires Launched(env, before, wave, t, w, active, previous, u) && c < d < |w.calls|
    ensures w.calls[c].pos != w.calls[d].pos
    ensures w.calls[c].pos < |w.snapshot| && w.calls[d].pos < |w.snapshot|
    ensures w.snapshot[w.calls[c].pos].files !! w.snapshot[w.calls[d].pos].files
  {
    RunningIncreases(w.snapshot, wave);
    var i :| 0 <= i < |wave| && wave[i] == active[c];
    var j :| 0 <= j < |wave| && wave[j] == active[d];
    assert w.snapshot[wave[i]] == Started(env, before[wave[i]], t + i);
    assert w.snapshot[wave[j]] == Started(env, before[wave[j]], t + j);
    assert active[c] < active[d];
    OrderReflects(wave, i, j);
    assert before[wave[i]].files !! before[wave[j]].files;
  }

  /** Starting a chosen wave and issuing its calls is safe, whatever the calls return. */
  lemma LaunchedIsSafe(env: Environment, before: seq<ExecutionNode>, wave: seq<nat>, t: nat, w: Wave, cap: nat,
                       active: seq<nat>, previous: map<string, PreviousFailure>, u: nat)
    requires Launched(env, before, wave, t, w, active, previous, u) && 1 <= |wave| <= cap
    requires w.limit.Some? <==> exists c :: 0 <= c < |w.calls| && w.calls[c].result.RateLimited?
    ensures WaveSafe(w, cap)
  {
    forall c | 0 <= c < |w.calls| ensures CallSafe(w, w.calls[c]) {
      LaunchedCall(env, before, wave, t, w, active, previous, u, c);
    }
    forall c, d | 0 <= c < d < |w.calls|
      ensures w.calls[c].pos != w.calls[d].pos
      ensures w.snapshot[w.calls[c].pos].files !! w.snapshot[w.calls[d].pos].files
    {
      LaunchedDisjoint(env, before, wave, t, w, active, previous, u, c, d);
    }
  }

  /** What launching a wave does to one node. */
  lemma LaunchedNode(env: Environment, before: seq<ExecutionNode>, wave: seq<nat>, t: nat, w: Wave,
                     active: seq<nat>, previous: map<string, PreviousFailure>, u: nat, k: nat)
    requires Launched(env, before, wave, t, w, active, previous, u) && k < |before|
    ensures |w.snapshot| == |before| && NodeEvolves(before[k], w.snapshot[k])
    ensures w.snapshot[k].attempts == before[k].attempts + (if Called(w, k) then 1 else 0)
    ensures (k in wave <==> w.snapshot[k] != before[k]) && (Called(w, k) <==> k in active)
    ensures w.snapshot[k] != before[k] ==> Ready(before, k) && w.snapshot[k].status != Passed
  {
    StartedEvolves(env, before, wave, t, w.snapshot, w.asks);
    CalledExactly(env, w.snapshot, active, previous, u, w);
    if k in wave {
      assert Ready(before, k);
    }
  }

  lemma LaunchedEffect(env: Environment, before: seq<ExecutionNode>, wave: seq<nat>, t: nat, w: Wave,
                       active: seq<nat>, previous: map<string, PreviousFailure>, u: nat)
    requires Launched(env, before, wave, t, w, active, previous, u)
    ensures WaveEffect(before, w, w.snapshot)
    ensures forall k :: 0 <= k < |before| ==> (k in wave <==> w.snapshot[k] != before[k])
    ensures forall k :: 0 <= k < |before| ==> (Called(w, k) <==> k in active)
  {
    LaunchedAttempts(env, before, wave, t, w, active, previous, u);
    forall k | 0 <= k < |before|
      ensures NodeEvolves(before[k], w.snapshot[k])
      ensures w.snapshot[k].attempts == before[k].attempts + (if Called(w, k) then 1 else 0)
      ensures (k in wave <==> w.snapshot[k] != before[k]) && (Called(w, k) <==> k in active)
      ensures w.snapshot[k] != before[k] ==> Ready(before, k) && w.snapshot[k].status != Passed
    {
      LaunchedNode(env, before, wave, t, w, active, previous, u, k);
    }
    EvolvesReflexive(w.snapshot);
  }

  lemma EvolvesReflexive(nodes: seq<ExecutionNode>)
    ensures Evolves(nodes, nodes)
  {
  }

  lemma LaunchedAttempts(env: Environment, before: seq<ExecutionNode>, wave: seq<nat>, t: nat, w: Wave,
                         active: seq<nat>, previous: map<string, PreviousFailure>, u: nat)
    requires Launched(env, before, wave, t, w, active, previous, u)
    ensures forall c :: 0 <= c < |w.calls| ==>
      w.calls[c].pos < |before| && w.calls[c].attempt == before[w.calls[c].pos].attempts + 1
  {
    forall c | 0 <= c < |w.calls|
      ensures w.calls[c].pos < |before| && w.calls[c].attempt == before[w.calls[c].pos].attempts + 1
    {
      LaunchedCall(env, before, wave, t, w, active, previous, u, c);
    }
  }

  // ---- Settling ----

  lemma CallReturnedPassed(w: Wave, order: seq<nat>, outcomes: seq<Outcome>, i: nat)
    requires Partition(order, [], |w.calls|) && ResolvedUpTo(w.calls, order, outcomes)
    requires i < |outcomes| && outcomes[i].status == Passed
    ensures w.calls[i].result.Returned? && w.calls[i].result.outcome.status == Passed
  {
    assert i in order;
  }

  lemma SettledEvolves(env: Environment, w: Wave, active: seq<nat>, order: seq<nat>, outcomes: seq<Outcome>,
                       limit: Option<string>, completions: seq<Completion>, after: seq<ExecutionNode>, k: nat)
    requires Valid(w.snapshot) && |active| == |outcomes| == |w.calls| && k < |w.snapshot|
    requires forall i :: 0 <= i < |active| ==>
      active[i] < |w.snapshot| && w.calls[i].pos == active[i] && w.snapshot[active[i]].status == Running
    requires Partition(order, [], |w.calls|) && ResolvedUpTo(w.calls, order, outcomes)
    requires SettledUpTo(env, w.snapshot, active, outcomes, limit, |active|, completions, after) && w.completions == completions
    ensures NodeEvolves(w.snapshot[k], after[k]) && after[k].attempts == w.snapshot[k].attempts
    ensures k !in active ==> after[k] == w.snapshot[k]
    ensures k in active ==>
      && after[k].status in {Passed, Blocked, Queued}
      && (after[k].status == Passed ==> PassedIn(w, k))
      && (after[k].status == Queued ==> limit.None? && after[k].attempts < AttemptLimit(after[k]))
  {
    assert active[..|active|] == active;
    if k in active {
      var i :| 0 <= i < |active| && active[i] == k;
      SettledFacts(env, w.snapshot[k], outcomes[i], limit, completions[i].at);
      if after[k].status == Passed {
        CallReturnedPassed(w, order, outcomes, i);
        assert w.calls[i].pos == k;
      }
    }
  }

  lemma SettledEffect(env: Environment, before: seq<ExecutionNode>, wave: seq<nat>, t: nat, w: Wave,
                      active: seq<nat>, previous: map<string, PreviousFailure>, u: nat,
                      order: seq<nat>, outcomes: seq<Outcome>, limit: Option<string>, completions: seq<Completion>,
                      after: seq<ExecutionNode>)
    requires Launched(env, before, wave, t, w, active, previous, u) && wave != []
    requires |active| == |outcomes| && (w.limit == limit)
    requires Partition(order, [], |w.calls|) && ResolvedUpTo(w.calls, order, outcomes)
    requires SettledUpTo(env, w.snapshot, active, outcomes, limit, |active|, completions, after) && w.completions == completions
    ensures WaveEffect(before, w, after) && WaveSettled(before, w, after)
  {
    LaunchedEffect(env, before, wave, t, w, active, previous, u);
    StartedEvolves(env, before, wave, t, w.snapshot, w.asks);
    SettledNodes(env, w, active, order, outcomes, limit, after);
    SettledEffectPoint(before, w, after, wave[0]);
  }

  lemma {:induction false} SettledNodes(env: Environment, w: Wave, active: seq<nat>, order: seq<nat>, outcomes: seq<Outcome>,
                                        limit: Option<string>, after: seq<ExecutionNode>)
    requires Valid(w.snapshot) && |active| == |outcomes| == |w.calls|
    requires forall i :: 0 <= i < |active| ==>
      active[i] < |w.snapshot| && w.calls[i].pos == active[i] && w.snapshot[active[i]].status == Running
    requires Partition(order, [], |w.calls|) && ResolvedUpTo(w.calls, order, outcomes)
    requires SettledUpTo(env, w.snapshot, active, outcomes, limit, |active|, w.completions, after)
    ensures forall k :: 0 <= k < |w.snapshot| ==>
      && NodeEvolves(w.snapshot[k], after[k]) && after[k].attempts == w.snapshot[k].attempts
      && (k !in active ==> after[k] == w.snapshot[k])
      && (k in active ==>
            && after[k].status in {Passed, Blocked, Queued}
            && (after[k].status == Passed ==> PassedIn(w, k))
            && (after[k].status == Queued ==> limit.None? && after[k].attempts < AttemptLimit(after[k])))
  {
    forall k | 0 <= k < |w.snapshot|
      ensures NodeEvolves(w.snapshot[k], after[k]) && after[k].attempts == w.snapshot[k].attempts
      ensures k !in active ==> after[k] == w.snapshot[k]
      ensures k in active ==>
        && after[k].status in {Passed, Blocked, Queued}
        && (after[k].status == Passed ==> PassedIn(w, k))
        && (after[k].status == Queued ==> limit.None? && after[k].attempts < AttemptLimit(after[k]))
    {
      SettledEvolves(env, w, active, order, outcomes, limit, w.completions, after, k);
    }
  }

  lemma SettledEffectPoint(before: seq<ExecutionNode>, w: Wave, after: seq<ExecutionNode>, k: nat)
    requires |before| == |w.snapshot| == |after| && k < |before| && Ready(before, k)
    requires w.snapshot[k].status == Running || w.snapshot[k].status == Blocked
    requires after[k].attempts == w.snapshot[k].attempts && NodeEvolves(w.snapshot[k], after[k])
    requires w.snapshot[k].attempts == before[k].attempts + (if w.snapshot[k].status == Running then 1 else 0)
    ensures after[k] != before[k]
  {
  }
}
