/** `executeExecutionNodePlan`: waves of authorized, bounded, dependency-aware runs until every node
    is terminal, the caller aborts, or nothing can run (execution-node-coordinator.ts:142-145, 338-525). */
module PlanCoordinator {
  import opened Options
  import opened Strings
  import opened ExecutionNodes
  import opened PlanBlocking
  import opened PlanWaves
  import opened PlanSettlement
  import opened PlanRuns
  import opened PlanTraces
  import opened PlanProgress

  const DEFAULT_MAX_PARALLEL_NODES: nat := 3
  const MAX_PARALLEL_NODES: nat := 8

  /** None stands for an undefined or non-finite option. */
  function ClampParallelism(value: Option<real>): (r: nat)
    ensures 1 <= r <= MAX_PARALLEL_NODES
    ensures value.None? ==> r == DEFAULT_MAX_PARALLEL_NODES
    ensures value.Some? && 1.0 <= value.value < MAX_PARALLEL_NODES as real ==> r as real <= value.value < (r + 1) as real
    ensures value.Some? && value.value < 1.0 ==> r == 1
    ensures value.Some? && value.value >= MAX_PARALLEL_NODES as real ==> r == MAX_PARALLEL_NODES
  {
    if value.None? then DEFAULT_MAX_PARALLEL_NODES
    else
      var floor := value.value.Floor;
      if floor < 1 then 1 else if floor > MAX_PARALLEL_NODES then MAX_PARALLEL_NODES else floor
  }

  datatype PlanStatus = PlanPassed | PlanBlocked | PlanCancelled

  datatype PlanResult = PlanResult(
    nodes: seq<ExecutionNode>,
    status: PlanStatus,
    completedNodeIds: seq<string>,
    blockedNodeIds: seq<string>)

  predicate HasStatus(nodes: seq<ExecutionNode>, id: string, status: Status) {
    exists j :: 0 <= j < |nodes| && nodes[j].id == id && nodes[j].status == status
  }

  function IdsWith(nodes: seq<ExecutionNode>, status: Status): (r: seq<string>)
    ensures forall id :: id in r <==> HasStatus(nodes, id, status)
    ensures |r| <= |nodes|
  {
    if nodes == [] then []
    else
      var rest := IdsWith(nodes[1..], status);
      assert nodes == [nodes[0]] + nodes[1..];
      assert forall id :: HasStatus(nodes, id, status) <==>
               (nodes[0].id == id && nodes[0].status == status) || HasStatus(nodes[1..], id, status) by {
        forall id ensures HasStatus(nodes, id, status) <==>
                            (nodes[0].id == id && nodes[0].status == status) || HasStatus(nodes[1..], id, status) {
          HasStatusSplit(nodes, id, status);
        }
      }
      if nodes[0].status == status then [nodes[0].id] + rest else rest
  }

  lemma HasStatusSplit(nodes: seq<ExecutionNode>, id: string, status: Status)
    requires nodes != []
    ensures HasStatus(nodes, id, status) <==>
              (nodes[0].id == id && nodes[0].status == status) || HasStatus(nodes[1..], id, status)
  {
    if HasStatus(nodes, id, status) {
      var j :| 0 <= j < |nodes| && nodes[j].id == id && nodes[j].status == status;
      if j > 0 {
        assert nodes[1..][j - 1] == nodes[j];
      }
    }
    if HasStatus(nodes[1..], id, status) {
      var j :| 0 <= j < |nodes| - 1 && nodes[1..][j].id == id && nodes[1..][j].status == status;
      assert nodes[j + 1] == nodes[1..][j];
    }
  }

  function IdOf(n: ExecutionNode): string { n.id }

  /** The ids are listed in plan order, once for every node with the status. */
  lemma {:induction false} IdsInPlanOrder(nodes: seq<ExecutionNode>, status: Status, has: ExecutionNode -> bool) returns (ks: seq<nat>)
    requires forall n :: has(n) <==> n.status == status
    ensures Filtered(nodes, has, IdOf, IdsWith(nodes, status), ks)
  {
    if nodes == [] {
      ks := [];
    } else {
      ks := IdsInPlanOrder(nodes[1..], status, has);
      ks := FilteredCons(nodes, has, IdOf, IdsWith(nodes[1..], status), ks);
    }
  }

  function ResultOf(nodes: seq<ExecutionNode>, status: PlanStatus): PlanResult {
    PlanResult(nodes, status, IdsWith(nodes, Passed), IdsWith(nodes, Blocked))
  }

  function InitialPrevious(nodes: seq<ExecutionNode>): map<string, PreviousFailure> {
    if nodes == [] then map[]
    else
      var last := nodes[|nodes| - 1];
      var earlier := InitialPrevious(nodes[..|nodes| - 1]);
      if last.lastFailure.None? then earlier
      else earlier[last.id := PreviousFailure(last.lastFailure.value.attempt, last.lastFailure.value.detail)]
  }

  lemma {:induction false} InitialPreviousAt(nodes: seq<ExecutionNode>, k: nat)
    requires UniqueIds(nodes) && k < |nodes|
    ensures Lookup(InitialPrevious(nodes), nodes[k].id) == Checkpointed(nodes[k])
  {
    var m := |nodes| - 1;
    if k < m {
      InitialPreviousAt(nodes[..m], k);
    } else {
      InitialPreviousForeign(nodes[..m], nodes[m].id);
    }
  }

  lemma {:induction false} InitialPreviousForeign(nodes: seq<ExecutionNode>, id: string)
    requires forall k :: 0 <= k < |nodes| ==> nodes[k].id != id
    ensures id !in InitialPrevious(nodes)
  {
    if nodes != [] {
      InitialPreviousForeign(nodes[..|nodes| - 1], id);
    }
  }

  // ---- The invariant of the main loop ----

  /** Everything a run has kept so far, except what only settled waves keep. */
  ghost predicate Kept(initial: seq<ExecutionNode>, nodes: seq<ExecutionNode>, waves: seq<Wave>, cap: nat) {
    && Valid(initial) && Valid(nodes)
    && Recorded(RecoveredPlan(initial), nodes, waves, cap)
    && Accounted(initial, nodes, waves) && Witnessed(initial, nodes, waves) && Informed(initial, waves)
    && (forall k :: 0 <= k < |nodes| ==> nodes[k].attempts <= initial[k].attempts + RunBudget(initial[k]))
  }

  /** A run is safe: what it kept holds of a record that its environment made. */
  ghost predicate RunSafe(env: Environment, initial: seq<ExecutionNode>, nodes: seq<ExecutionNode>, waves: seq<Wave>, cap: nat) {
    Kept(initial, nodes, waves, cap) && Chained(env, initial, waves, cap)
  }

  ghost predicate LoopInvariant(initial: seq<ExecutionNode>, nodes: seq<ExecutionNode>, waves: seq<Wave>, cap: nat,
                                previous: map<string, PreviousFailure>, limit: Option<string>) {
    && Kept(initial, nodes, waves, cap) && AtRest(nodes)
    && Budgeted(initial, nodes) && Prepared(initial, nodes, previous) && Fresh(initial, nodes)
    && (forall w :: 0 <= w < |waves| && waves[w].limit.Some? ==> limit.Some?)
  }

  lemma SameAsInitial(initial: seq<ExecutionNode>, nodes: seq<ExecutionNode>)
    requires Evolves(RecoveredPlan(initial), nodes)
    ensures |nodes| == |initial|
    ensures forall k :: 0 <= k < |nodes| ==> SameNode(initial[k], nodes[k]) && initial[k].attempts <= nodes[k].attempts
    ensures forall k :: 0 <= k < |nodes| && Terminal(initial[k]) ==> nodes[k] == initial[k]
  {
    forall k | 0 <= k < |nodes|
      ensures SameNode(initial[k], nodes[k]) && initial[k].attempts <= nodes[k].attempts
      ensures Terminal(initial[k]) ==> nodes[k] == initial[k]
    {
      assert NodeEvolves(RecoveredPlan(initial)[k], nodes[k]);
    }
  }

  lemma {:induction false} Begin(initial: seq<ExecutionNode>, nodes: seq<ExecutionNode>, cap: nat, previous: map<string, PreviousFailure>)
    requires Valid(initial) && Valid(nodes) && |nodes| == |initial|
    requires forall k :: 0 <= k < |nodes| ==> nodes[k] == Recovered(initial[k])
    requires previous == InitialPrevious(initial)
    ensures LoopInvariant(initial, nodes, [], cap, previous, None)
    ensures Justified(initial, nodes, map[], 0)
  {
    forall k | 0 <= k < |nodes| ensures Lookup(previous, nodes[k].id) == Checkpointed(initial[k]) {
      InitialPreviousAt(initial, k);
    }
    assert nodes == RecoveredPlan(initial);
  }

  /** A blocking pass: each node is as before, or was queued and is now blocked. */
  ghost predicate OnlyBlocks(a: seq<ExecutionNode>, b: seq<ExecutionNode>) {
    && |a| == |b|
    && forall k :: 0 <= k < |a| ==>
         b[k] == a[k] || (a[k].status == Queued && b[k].status == Blocked && SameNode(a[k], b[k]) && b[k].attempts == a[k].attempts)
  }

  lemma BlockingKeeps(initial: seq<ExecutionNode>, nodes: seq<ExecutionNode>, waves: seq<Wave>, cap: nat,
                      previous: map<string, PreviousFailure>, limit: Option<string>, next: seq<ExecutionNode>)
    requires LoopInvariant(initial, nodes, waves, cap, previous, limit) && OnlyBlocks(nodes, next) && Valid(next)
    ensures LoopInvariant(initial, next, waves, cap, previous, limit)
    ensures Measure(next) <= Measure(nodes)
  {
    forall k | 0 <= k < |nodes| ensures NodeEvolves(nodes[k], next[k]) && Weight(next[k]) <= Weight(nodes[k]) {}
    EvolvesTransitive(RecoveredPlan(initial), nodes, next);
    forall w | 0 <= w < |waves| ensures Evolves(waves[w].snapshot, next) {
      EvolvesTransitive(waves[w].snapshot, nodes, next);
    }
    MeasureMonotone(nodes, next);
  }

  lemma BlockingJustified(initial: seq<ExecutionNode>, nodes: seq<ExecutionNode>, next: seq<ExecutionNode>,
                          rank: map<string, nat>, level: nat)
    requires Justified(initial, nodes, rank, level) && OnlyBlocks(nodes, next)
    ensures Justified(initial, next, rank, level)
  {
    forall id | id in rank
      ensures exists k :: 0 <= k < |next| && next[k].id == id && next[k].status == Passed
    {
      var k :| 0 <= k < |nodes| && nodes[k].id == id && nodes[k].status == Passed;
      assert next[k] == nodes[k];
    }
  }

  lemma WaveKeepsSafe(initial: seq<ExecutionNode>, before: seq<ExecutionNode>, waves: seq<Wave>, cap: nat,
                      previous: map<string, PreviousFailure>, w: Wave, after: seq<ExecutionNode>)
    requires LoopInvariant(initial, before, waves, cap, previous, None)
    requires WaveSafe(w, cap) && WaveEffect(before, w, after) && Valid(after)
    requires CallsFrom(before, w, previous)
    ensures Kept(initial, after, waves + [w], cap)
  {
    SameAsInitial(initial, before);
    RecordWave(RecoveredPlan(initial), before, waves, cap, w, after);
    AccountWave(initial, before, waves, w, after);
    InformWave(initial, before, waves, w, after, previous);
  }

  lemma SettledQueued(initial: seq<ExecutionNode>, before: seq<ExecutionNode>, previous: map<string, PreviousFailure>,
                      w: Wave, after: seq<ExecutionNode>, next: map<string, PreviousFailure>, active: seq<nat>, k: nat)
    requires Fresh(initial, before) && Prepared(initial, before, previous)
    requires WaveEffect(before, w, after) && WaveSettled(before, w, after) && Valid(after)
    requires forall m :: 0 <= m < |before| ==> initial[m].attempts <= before[m].attempts
    requires Called(w, k) <==> k in active
    requires forall i :: 0 <= i < |active| ==> active[i] < |w.snapshot|
    requires PreviousUpTo(w.snapshot, active, after, |active|, previous, next)
    requires k < |after| && after[k].status == Queued
    ensures initial[k].status != Passed
    ensures after[k].attempts >= 3 ==> initial[k].status == Queued && initial[k].attempts >= 3
    ensures PreparedFor(initial[k], after[k], next)
  {
    assert NodeEvolves(before[k], w.snapshot[k]) && NodeEvolves(w.snapshot[k], after[k]);
    assert active[..|active|] == active;
    if k in active {
      var i :| 0 <= i < |active| && active[i] == k;
      assert w.snapshot[active[i]].id in next;
      assert after[k] != before[k];
    } else {
      assert after[k] == before[k];
      assert PreparedFor(initial[k], before[k], previous);
    }
  }

  lemma SettledKeepsLoop(initial: seq<ExecutionNode>, before: seq<ExecutionNode>, waves: seq<Wave>, cap: nat,
                         previous: map<string, PreviousFailure>, w: Wave, after: seq<ExecutionNode>,
                         next: map<string, PreviousFailure>, active: seq<nat>, limit: Option<string>)
    requires LoopInvariant(initial, before, waves, cap, previous, None)
    requires Kept(initial, after, waves + [w], cap)
    requires WaveEffect(before, w, after) && WaveSettled(before, w, after) && (w.limit == limit)
    requires forall k :: 0 <= k < |before| ==> (Called(w, k) <==> k in active)
    requires forall i :: 0 <= i < |active| ==> active[i] < |w.snapshot|
    requires PreviousUpTo(w.snapshot, active, after, |active|, previous, next)
    ensures LoopInvariant(initial, after, waves + [w], cap, next, limit)
  {
    SameAsInitial(initial, before);
    BudgetWave(initial, before, w, after);
    forall k | 0 <= k < |after| && after[k].status == Queued
      ensures initial[k].status != Passed
      ensures after[k].attempts >= 3 ==> initial[k].status == Queued && initial[k].attempts >= 3
      ensures PreparedFor(initial[k], after[k], next)
    {
      SettledQueued(initial, before, previous, w, after, next, active, k);
    }
    SettledAtRest(before, w, after);
    LimitOnlyLast(waves, w, limit);
  }

  lemma SettledAtRest(before: seq<ExecutionNode>, w: Wave, after: seq<ExecutionNode>)
    requires |after| == |before| && AtRest(before) && WaveSettled(before, w, after)
    ensures AtRest(after)
  {
    forall k | 0 <= k < |after| ensures after[k].status in {Queued, Passed, Blocked} {
      if after[k] == before[k] {
        assert before[k].status in {Queued, Passed, Blocked};
      }
    }
  }

  lemma LimitOnlyLast(waves: seq<Wave>, w: Wave, limit: Option<string>)
    requires (forall v :: 0 <= v < |waves| ==> !waves[v].limit.Some?) && w.limit == limit
    ensures forall v :: 0 <= v < |waves + [w]| && (waves + [w])[v].limit.Some? ==> limit.Some?
  {
  }

  // ---- One iteration ----

  /** The head of an iteration: after a rate limit every queued node is blocked with its reason;
      otherwise exactly the nodes that can no longer pass are blocked. */
  method BlockBeforeWave(nodes: seq<ExecutionNode>, limit: Option<string>) returns (next: seq<ExecutionNode>)
    requires Valid(nodes)
    ensures Valid(next) && OnlyBlocks(nodes, next) && HeadOf(nodes, limit, next) && Quiet(next)
    ensures limit.Some? ==> forall k :: 0 <= k < |next| ==> next[k].status != Queued
  {
    next := nodes;
    if limit.Some? {
      next := BlockRateLimitedNodes(next, limit.value);
      assert OnlyBlocks(nodes, next);
    }
    UniqueIsNotTrapped(next);
    ghost var limited := next;
    next := BlockImpossibleNodes(next);
    NothingQueuedNothingBlocked(limited, next);
  }

  lemma NothingQueuedNothingBlocked(nodes: seq<ExecutionNode>, next: seq<ExecutionNode>)
    requires BlockedExactly(nodes, next)
    ensures (forall k :: 0 <= k < |nodes| ==> nodes[k].status != Queued) ==> next == nodes
    ensures OnlyBlocks(nodes, next)
  {
    forall k | 0 <= k < |nodes| ensures CannotPass(nodes, k) ==> nodes[k].status == Queued {}
  }

  /** The facts the run record needs about the calls of a wave. */
  ghost predicate CallsFrom(before: seq<ExecutionNode>, w: Wave, previous: map<string, PreviousFailure>) {
    forall c :: 0 <= c < |w.calls| ==>
      w.calls[c].pos < |before| && Ready(before, w.calls[c].pos)
      && var n := before[w.calls[c].pos]; w.calls[c].previous == Lookup(previous, n.id)
  }

  lemma LaunchedCallsFrom(env: Environment, before: seq<ExecutionNode>, wave: seq<nat>, t: nat, w: Wave,
                          active: seq<nat>, previous: map<string, PreviousFailure>, u: nat)
    requires Launched(env, before, wave, t, w, active, previous, u)
    ensures CallsFrom(before, w, previous)
  {
    forall c | 0 <= c < |w.calls|
      ensures w.calls[c].pos < |before| && Ready(before, w.calls[c].pos)
      ensures var n := before[w.calls[c].pos]; w.calls[c].previous == Lookup(previous, n.id)
    {
      LaunchedCall(env, before, wave, t, w, active, previous, u, c);
    }
  }

  /** Starts a wave and waits for all its calls. */
  method LaunchWave(env: Environment, before: seq<ExecutionNode>, wave: seq<nat>, t0: nat, previous: map<string, PreviousFailure>)
    returns (w: Wave, active: seq<nat>, outcomes: seq<Outcome>, order: seq<nat>, limit: Option<string>, t: nat, ghost u: nat)
    requires Valid(before) && AllReady(before, wave) && Increasing(wave) && DisjointFiles(before, wave)
    ensures Launched(env, before, wave, t0, w, active, previous, u)
    ensures Increasing(active)
    ensures forall i :: 0 <= i < |active| ==> active[i] < |w.snapshot| && w.snapshot[active[i]].status == Running
    ensures Valid(w.snapshot)
    ensures |active| == |outcomes| && Partition(order, [], |w.calls|) && ResolvedUpTo(w.calls, order, outcomes)
    ensures limit == FirstLimit(w.calls, order) && w.limit == limit
    ensures w.before == before && w.startAt == t0 && u == RunAt(w) && t == DoneAt(w)
    ensures w.completions == [] && w.after == w.snapshot
  {
    var snapshot, asks, t1 := StartWave(env, before, wave, t0);
    active := RunningAmong(snapshot, wave);
    RunningIncreases(snapshot, wave);
    ActiveRuns(snapshot, wave);
    u := t1;
    var calls;
    calls, outcomes, order, limit, t := RunWave(env, snapshot, active, previous, t1);
    w := Wave(before, t0, asks, snapshot, calls, limit, [], snapshot);
  }

  lemma LaunchedAsks(env: Environment, before: seq<ExecutionNode>, wave: seq<nat>, t: nat, w: Wave,
                     active: seq<nat>, previous: map<string, PreviousFailure>, u: nat)
    requires Launched(env, before, wave, t, w, active, previous, u)
    ensures AskedFor(w, wave)
  {
  }

  lemma TakesFirstOfChoice(before: seq<ExecutionNode>, runnable: seq<nat>, cap: nat, w: Wave)
    requires ChoiceUpTo(before, runnable, |before|) && AskedFor(w, if |runnable| > cap then runnable[..cap] else runnable)
    ensures TakesFirst(before, cap, w)
  {
    forall ks | ChoiceUpTo(before, ks, |before|) ensures ks == runnable {
      ChoiceIsUnique(before, ks, runnable);
    }
  }

  /** Only the settlement part of a launched wave changes. */
  lemma {:induction false} SameLaunch(env: Environment, before: seq<ExecutionNode>, wave: seq<nat>, t: nat, launched: Wave, w: Wave,
                                      active: seq<nat>, previous: map<string, PreviousFailure>, u: nat)
    requires w.snapshot == launched.snapshot && w.asks == launched.asks && w.calls == launched.calls
    requires Launched(env, before, wave, t, launched, active, previous, u)
    ensures Launched(env, before, wave, t, w, active, previous, u)
  {
  }

  /** What holds of a wave once its calls have been issued, whether it is settled or not. */
  lemma {:induction false} LaunchedWave(env: Environment, before: seq<ExecutionNode>, wave: seq<nat>, t: nat, w: Wave, cap: nat,
                                        active: seq<nat>, previous: map<string, PreviousFailure>, u: nat, order: seq<nat>)
    requires Launched(env, before, wave, t, w, active, previous, u) && 1 <= |wave| <= cap
    requires w.before == before && w.startAt == t && RunAt(w) == u
    requires Partition(order, [], |w.calls|) && w.limit == FirstLimit(w.calls, order)
    ensures WaveSafe(w, cap) && CallsFrom(before, w, previous) && AskedFor(w, wave)
    ensures StartsGenuine(env, w) && CallsGenuine(env, w) && LimitGenuine(w)
    ensures forall k :: 0 <= k < |before| ==> (Called(w, k) <==> k in active)
    ensures forall i :: 0 <= i < |active| ==> active[i] < |w.snapshot|
  {
    WaveLimited(w.calls, order);
    LaunchedIsSafe(env, before, wave, t, w, cap, active, previous, u);
    LaunchedCallsFrom(env, before, wave, t, w, active, previous, u);
    LaunchedAsks(env, before, wave, t, w, active, previous, u);
    LaunchedEffect(env, before, wave, t, w, active, previous, u);
    LaunchedStarts(env, wave, w, active, previous);
    LaunchedCalls(env, wave, w, active, previous);
    RecordedLimit(w, order);
  }

  /** Settles a launched wave. */
  method FinishWave(env: Environment, launched: Wave, active: seq<nat>, outcomes: seq<Outcome>,
                    previous0: map<string, PreviousFailure>)
    returns (w: Wave, t: nat, previous: map<string, PreviousFailure>)
    requires Valid(launched.snapshot) && |active| == |outcomes| && Increasing(active)
    requires forall i :: 0 <= i < |active| ==>
      active[i] < |launched.snapshot| && launched.snapshot[active[i]].status == Running
    ensures w.before == launched.before && w.startAt == launched.startAt && w.asks == launched.asks
    ensures w.snapshot == launched.snapshot && w.calls == launched.calls && w.limit == launched.limit
    ensures SettledUpTo(env, w.snapshot, active, outcomes, w.limit, |active|, w.completions, w.after)
    ensures Timed(env, w.completions, DoneAt(w)) && t == EndAt(env, w)
    ensures PreviousUpTo(w.snapshot, active, w.after, |active|, previous0, previous)
  {
    var nodes, completions;
    nodes, t, previous, completions :=
      SettleWave(env, launched.snapshot, active, outcomes, launched.limit, DoneAt(launched), previous0);
    w := launched.(completions := completions, after := nodes);
  }

  /** What one wave establishes. It is genuine; it is cancelled exactly when the caller has aborted by
      the time its last call ended, and then leaves the running snapshot for a later resume;
      otherwise every called node is settled and retry contexts carry the attempt that just failed. */
  ghost predicate WaveResult(env: Environment, initial: seq<ExecutionNode>, before: seq<ExecutionNode>, wave: seq<nat>, cap: nat,
                             t0: nat, previous0: map<string, PreviousFailure>, w: Wave, t: nat,
                             previous: map<string, PreviousFailure>, active: seq<nat>) {
    && Genuine(env, w) && w.before == before && w.startAt == t0 && t == EndAt(env, w)
    && Valid(w.after) && WaveSafe(w, cap) && WaveEffect(before, w, w.after) && CallsFrom(before, w, previous0)
    && AskedFor(w, wave)
    && (forall k :: 0 <= k < |before| ==> (Called(w, k) <==> k in active))
    && (forall i :: 0 <= i < |active| ==> active[i] < |w.snapshot|)
    && (env.Aborted(DoneAt(w)) ==> w.after == w.snapshot)
    && (!env.Aborted(DoneAt(w)) ==>
          && WaveSettled(before, w, w.after)
          && PreviousUpTo(w.snapshot, active, w.after, |active|, previous0, previous)
          && (Cooperative(env, initial) && Sailing(before) ==> Sailing(w.after) && w.limit.None?))
  }

  /** Starts, runs and settles one wave. */
  method RunOneWave(env: Environment, before: seq<ExecutionNode>, wave: seq<nat>, cap: nat, t0: nat,
                    previous0: map<string, PreviousFailure>, ghost initial: seq<ExecutionNode>)
    returns (cancelled: bool, w: Wave, t: nat, previous: map<string, PreviousFailure>, ghost active: seq<nat>)
    requires Valid(before) && AllReady(before, wave) && Increasing(wave) && DisjointFiles(before, wave)
    requires 1 <= |wave| <= cap
    requires |initial| == |before| && forall m :: 0 <= m < |before| ==> SameNode(initial[m], before[m])
    ensures WaveResult(env, initial, before, wave, cap, t0, previous0, w, t, previous, active)
    ensures cancelled <==> env.Aborted(DoneAt(w))
  {
    var outcomes, order, running, limit;
    ghost var u;
    w, running, outcomes, order, limit, t, u := LaunchWave(env, before, wave, t0, previous0);
    active := running;
    previous := previous0;
    cancelled := env.Aborted(t);
    if cancelled {
      CancelledResult(env, initial, before, wave, cap, t0, w, active, previous, u, order);
    } else {
      ghost var launched := w;
      w, t, previous := FinishWave(env, w, running, outcomes, previous);
      SameLaunch(env, before, wave, t0, launched, w, active, previous0, u);
      SettledResult(env, initial, before, wave, cap, t0, w, active, outcomes, order, previous0, u, previous);
    }
  }

  lemma {:induction false} CancelledResult(env: Environment, initial: seq<ExecutionNode>, before: seq<ExecutionNode>, wave: seq<nat>,
                                           cap: nat, t: nat, w: Wave, active: seq<nat>, previous: map<string, PreviousFailure>,
                                           u: nat, order: seq<nat>)
    requires Launched(env, before, wave, t, w, active, previous, u) && 1 <= |wave| <= cap
    requires w.before == before && w.startAt == t && RunAt(w) == u
    requires Partition(order, [], |w.calls|) && w.limit == FirstLimit(w.calls, order)
    requires w.completions == [] && w.after == w.snapshot && env.Aborted(DoneAt(w))
    ensures WaveResult(env, initial, before, wave, cap, t, previous, w, DoneAt(w), previous, active)
  {
    LaunchedWave(env, before, wave, t, w, cap, active, previous, u, order);
    CancelledWave(env, before, wave, t, w, active, previous, u);
  }

  lemma {:induction false} SettledResult(env: Environment, initial: seq<ExecutionNode>, before: seq<ExecutionNode>, wave: seq<nat>,
                                         cap: nat, t: nat, w: Wave, active: seq<nat>, outcomes: seq<Outcome>, order: seq<nat>,
                                         previous: map<string, PreviousFailure>, u: nat, next: map<string, PreviousFailure>)
    requires Launched(env, before, wave, t, w, active, previous, u) && 1 <= |wave| <= cap
    requires w.before == before && w.startAt == t && RunAt(w) == u
    requires |active| == |outcomes| && Partition(order, [], |w.calls|) && ResolvedUpTo(w.calls, order, outcomes)
    requires w.limit == FirstLimit(w.calls, order) && !env.Aborted(DoneAt(w)) && Timed(env, w.completions, DoneAt(w))
    requires forall i :: 0 <= i < |active| ==> active[i] < |w.snapshot|
    requires SettledUpTo(env, w.snapshot, active, outcomes, w.limit, |active|, w.completions, w.after)
    requires PreviousUpTo(w.snapshot, active, w.after, |active|, previous, next)
    requires |initial| == |before| && forall m :: 0 <= m < |initial| ==> SameNode(initial[m], before[m])
    ensures WaveResult(env, initial, before, wave, cap, t, previous, w, EndAt(env, w), next, active)
  {
    LaunchedWave(env, before, wave, t, w, cap, active, previous, u, order);
    SettledWave(env, before, wave, t, w, active, outcomes, order, previous, u, initial);
  }

  lemma {:induction false} CancelledWave(env: Environment, before: seq<ExecutionNode>, wave: seq<nat>, t: nat, w: Wave,
                                         active: seq<nat>, previous: map<string, PreviousFailure>, u: nat)
    requires Launched(env, before, wave, t, w, active, previous, u)
    requires w.completions == [] && w.after == w.snapshot && env.Aborted(DoneAt(w))
    ensures SettlementGenuine(env, w) && WaveEffect(before, w, w.after) && EndAt(env, w) == DoneAt(w)
  {
    LaunchedEffect(env, before, wave, t, w, active, previous, u);
  }

  lemma {:induction false} SettledWave(env: Environment, before: seq<ExecutionNode>, wave: seq<nat>, t: nat, w: Wave, active: seq<nat>,
                                       outcomes: seq<Outcome>, order: seq<nat>, previous: map<string, PreviousFailure>, u: nat,
                                       initial: seq<ExecutionNode>)
    requires Launched(env, before, wave, t, w, active, previous, u) && wave != []
    requires |active| == |outcomes| && Partition(order, [], |w.calls|) && ResolvedUpTo(w.calls, order, outcomes)
    requires w.limit == FirstLimit(w.calls, order) && !env.Aborted(DoneAt(w)) && Timed(env, w.completions, DoneAt(w))
    requires forall i :: 0 <= i < |active| ==> active[i] < |w.snapshot|
    requires SettledUpTo(env, w.snapshot, active, outcomes, w.limit, |active|, w.completions, w.after)
    requires |initial| == |before| && forall m :: 0 <= m < |initial| ==> SameNode(initial[m], before[m])
    ensures SettlementGenuine(env, w) && WaveEffect(before, w, w.after) && WaveSettled(before, w, w.after)
    ensures Cooperative(env, initial) && Sailing(before) ==> Sailing(w.after) && w.limit.None?
  {
    SettledGenuinely(env, w, active, order, outcomes);
    SettledEffect(env, before, wave, t, w, active, previous, u, order, outcomes, w.limit, w.completions, w.after);
    if Cooperative(env, initial) && Sailing(before) {
      CooperativeWave(env, initial, before, wave, t, w, active, previous, u, order, outcomes, w.completions, w.after);
    }
  }

  lemma WaveLimited(calls: seq<Call>, order: seq<nat>)
    requires Partition(order, [], |calls|)
    ensures FirstLimit(calls, order).Some? <==> exists c :: 0 <= c < |calls| && calls[c].result.RateLimited?
  {
    FirstLimitIff(calls, order);
    if c :| 0 <= c < |calls| && calls[c].result.RateLimited? {
      assert c in order;
    }
  }

  // ---- The plan ----

  lemma FinishedIsCompletable(initial: seq<ExecutionNode>, nodes: seq<ExecutionNode>, rank: map<string, nat>, level: nat)
    requires Justified(initial, nodes, rank, level) && forall k :: 0 <= k < |nodes| ==> nodes[k].status == Passed
    ensures Completable(initial)
  {
    assert Ranked(initial, rank);
  }

  ghost predicate AllPassed(nodes: seq<ExecutionNode>) { forall k :: 0 <= k < |nodes| ==> nodes[k].status == Passed }

  ghost predicate AllTerminal(nodes: seq<ExecutionNode>) { forall k :: 0 <= k < |nodes| ==> Terminal(nodes[k]) }

  /** Stalled nodes exist only in a plan that cannot complete. */
  lemma StallNeedsIncompletable(initial: seq<ExecutionNode>, nodes: seq<ExecutionNode>, waves: seq<Wave>, cap: nat,
                                previous: map<string, PreviousFailure>, limit: Option<string>)
    requires LoopInvariant(initial, nodes, waves, cap, previous, limit)
    requires Quiet(nodes) && forall k :: 0 <= k < |nodes| ==> !Ready(nodes, k)
    requires !AllTerminal(nodes)
    ensures !Completable(initial)
  {
    SameAsInitial(initial, nodes);
    var k :| 0 <= k < |nodes| && !Terminal(nodes[k]);
    assert nodes[k].status in {Queued, Passed, Blocked};
    forall rank ensures !Ranked(initial, rank) {
      if Ranked(initial, rank) {
        NeverStalled(initial, rank, nodes, k);
      }
    }
  }

  /** Under a cooperative environment a completable plan keeps sailing through the blocking pass. */
  lemma SailsThroughBlocking(initial: seq<ExecutionNode>, nodes: seq<ExecutionNode>, next: seq<ExecutionNode>)
    requires Completable(initial) && Sailing(nodes) && Fresh(initial, nodes) && BlockedExactly(nodes, next)
    requires forall m :: 0 <= m < |nodes| ==> SameNode(initial[m], nodes[m])
    ensures Sailing(next)
  {
    var rank :| Ranked(initial, rank);
    NothingImpossible(initial, rank, nodes, next);
  }

  lemma BeginsSailing(initial: seq<ExecutionNode>, nodes: seq<ExecutionNode>)
    requires |nodes| == |initial| && forall k :: 0 <= k < |nodes| ==> nodes[k] == Recovered(initial[k])
    ensures Completable(initial) ==> Sailing(nodes)
  {
    if Completable(initial) {
      var rank :| Ranked(initial, rank);
      forall k | 0 <= k < |nodes| ensures nodes[k].status == Queued || nodes[k].status == Passed {
        if initial[k].status != Passed {
          assert NodeRanked(initial, rank, k);
        }
      }
    }
  }

  /** The whole loop invariant; `sails` says that the environment is cooperative and the plan completable. */
  ghost predicate OnCourse(initial: seq<ExecutionNode>, nodes: seq<ExecutionNode>, waves: seq<Wave>, cap: nat,
                           previous: map<string, PreviousFailure>, limit: Option<string>,
                           rank: map<string, nat>, level: nat, sails: bool) {
    && LoopInvariant(initial, nodes, waves, cap, previous, limit)
    && Justified(initial, nodes, rank, level)
    && (sails ==> Completable(initial) && Sailing(nodes) && limit.None?)
  }

  lemma BlockingStaysOnCourse(initial: seq<ExecutionNode>, nodes: seq<ExecutionNode>, waves: seq<Wave>, cap: nat,
                              previous: map<string, PreviousFailure>, limit: Option<string>,
                              rank: map<string, nat>, level: nat, sails: bool, next: seq<ExecutionNode>)
    requires OnCourse(initial, nodes, waves, cap, previous, limit, rank, level, sails)
    requires OnlyBlocks(nodes, next) && Valid(next) && HeadOf(nodes, limit, next)
    ensures OnCourse(initial, next, waves, cap, previous, limit, rank, level, sails)
    ensures Measure(next) <= Measure(nodes)
  {
    SameAsInitial(initial, nodes);
    BlockingKeeps(initial, nodes, waves, cap, previous, limit, next);
    BlockingJustified(initial, nodes, next, rank, level);
    if sails {
      SailsThroughBlocking(initial, nodes, next);
    }
  }

  lemma WaveStaysOnCourse(initial: seq<ExecutionNode>, before: seq<ExecutionNode>, waves: seq<Wave>, cap: nat,
                          previous: map<string, PreviousFailure>, rank: map<string, nat>, level: nat, sails: bool,
                          w: Wave, after: seq<ExecutionNode>, next: map<string, PreviousFailure>, active: seq<nat>,
                          limit: Option<string>)
    requires OnCourse(initial, before, waves, cap, previous, None, rank, level, sails)
    requires Kept(initial, after, waves + [w], cap)
    requires WaveEffect(before, w, after) && WaveSettled(before, w, after) && (w.limit == limit)
    requires forall k :: 0 <= k < |before| ==> (Called(w, k) <==> k in active)
    requires forall i :: 0 <= i < |active| ==> active[i] < |w.snapshot|
    requires PreviousUpTo(w.snapshot, active, after, |active|, previous, next)
    requires sails ==> Sailing(after) && limit.None?
    ensures OnCourse(initial, after, waves + [w], cap, next, limit, ExtendRank(rank, before, after, level), level + 1, sails)
    ensures Measure(after) < Measure(before)
  {
    SameAsInitial(initial, before);
    SettledKeepsLoop(initial, before, waves, cap, previous, w, after, next, active, limit);
    JustifyWave(initial, before, w, after, rank, level);
    WaveShrinks(before, w, after);
  }

  datatype Step = Ended | Cancelled | Finished

  /** The record of the waves so far is complete up to time `t`, and the last wave was settled. */
  ghost predicate Traced(env: Environment, initial: seq<ExecutionNode>, waves: seq<Wave>, cap: nat, t: nat, limit: Option<string>) {
    && Chained(env, initial, waves, cap) && t == ClockAfter(env, waves, |waves|)
    && limit == LimitAfter(waves) && !CutShort(env, waves)
  }

  /** The invariant of the main loop. */
  ghost predicate AtTop(env: Environment, initial: seq<ExecutionNode>, nodes: seq<ExecutionNode>, waves: seq<Wave>, cap: nat,
                        t: nat, previous: map<string, PreviousFailure>, limit: Option<string>,
                        rank: map<string, nat>, level: nat, sails: bool) {
    && OnCourse(initial, nodes, waves, cap, previous, limit, rank, level, sails)
    && Traced(env, initial, waves, cap, t, limit) && nodes == LeftBy(initial, waves, |waves|)
  }

  /** The same once the plan has been blocked at the head of an iteration. */
  ghost predicate AtHead(env: Environment, initial: seq<ExecutionNode>, head: seq<ExecutionNode>, waves: seq<Wave>, cap: nat,
                         t: nat, previous: map<string, PreviousFailure>, limit: Option<string>,
                         rank: map<string, nat>, level: nat, sails: bool) {
    && OnCourse(initial, head, waves, cap, previous, limit, rank, level, sails)
    && Traced(env, initial, waves, cap, t, limit)
    && HeadOf(LeftBy(initial, waves, |waves|), limit, head) && Quiet(head)
    && (limit.Some? ==> forall k :: 0 <= k < |head| ==> head[k].status != Queued)
  }

  /** The loop has ended on a plan whose nodes have all passed or been blocked. */
  ghost predicate Concluded(env: Environment, initial: seq<ExecutionNode>, waves: seq<Wave>, cap: nat,
                            head: seq<ExecutionNode>, nodes: seq<ExecutionNode>, sails: bool) {
    && RunSafe(env, initial, nodes, waves, cap) && AllTerminal(nodes)
    && !CutShort(env, waves) && !env.Aborted(ClockAfter(env, waves, |waves|))
    && HeadOf(LeftBy(initial, waves, |waves|), LimitAfter(waves), head)
    && (if AllTerminal(head) then nodes == head
        else (forall k :: 0 <= k < |head| ==> !Ready(head, k)) && StalledFrom(head, nodes) && !Completable(initial))
    && (AllPassed(nodes) ==> Completable(initial)) && (sails ==> AllPassed(nodes))
  }

  lemma ConcludeTerminal(env: Environment, initial: seq<ExecutionNode>, waves: seq<Wave>, cap: nat, head: seq<ExecutionNode>,
                         t: nat, previous: map<string, PreviousFailure>, limit: Option<string>,
                         rank: map<string, nat>, level: nat, sails: bool)
    requires AtHead(env, initial, head, waves, cap, t, previous, limit, rank, level, sails)
    requires AllTerminal(head) && !env.Aborted(t)
    ensures Concluded(env, initial, waves, cap, head, head, sails)
  {
    PassedIsJustified(initial, head, rank, level);
    if sails {
      SailedIsPassed(head);
    }
  }

  lemma PassedIsJustified(initial: seq<ExecutionNode>, nodes: seq<ExecutionNode>, rank: map<string, nat>, level: nat)
    requires Justified(initial, nodes, rank, level)
    ensures AllPassed(nodes) ==> Completable(initial)
  {
    if AllPassed(nodes) {
      FinishedIsCompletable(initial, nodes, rank, level);
    }
  }

  lemma SailedIsPassed(nodes: seq<ExecutionNode>)
    requires Sailing(nodes) && AllTerminal(nodes)
    ensures AllPassed(nodes)
  {
    forall k | 0 <= k < |nodes| ensures nodes[k].status == Passed {
      assert Terminal(nodes[k]);
    }
  }

  lemma ConcludeStalled(env: Environment, initial: seq<ExecutionNode>, waves: seq<Wave>, cap: nat, head: seq<ExecutionNode>,
                        t: nat, previous: map<string, PreviousFailure>, limit: Option<string>,
                        rank: map<string, nat>, level: nat, sails: bool, nodes: seq<ExecutionNode>)
    requires AtHead(env, initial, head, waves, cap, t, previous, limit, rank, level, sails)
    requires !AllTerminal(head) && !env.Aborted(t) && Valid(nodes)
    requires (forall k :: 0 <= k < |head| ==> !Ready(head, k)) && StalledFrom(head, nodes)
    ensures Concluded(env, initial, waves, cap, head, nodes, sails)
  {
    StallNeedsIncompletable(initial, head, waves, cap, previous, limit);
    BlockingKeeps(initial, head, waves, cap, previous, limit, nodes);
    BlockingJustified(initial, head, nodes, rank, level);
    PassedIsJustified(initial, nodes, rank, level);
    StalledAreTerminal(head, nodes);
  }

  /** One more wave, from the plan at the head of the iteration: the record goes on, and unless the
      wave was cut short the loop invariant holds again with a smaller measure. */
  ghost predicate StepResult(env: Environment, initial: seq<ExecutionNode>, head: seq<ExecutionNode>, waves0: seq<Wave>, cap: nat,
                             nodes: seq<ExecutionNode>, waves: seq<Wave>, t: nat, previous: map<string, PreviousFailure>,
                             limit: Option<string>, rank: map<string, nat>, level: nat, sails: bool) {
    && |waves| == |waves0| + 1 && waves[..|waves0|] == waves0
    && waves[|waves0|].before == head && waves[|waves0|].after == nodes
    && (CutShort(env, waves) ==> RunSafe(env, initial, nodes, waves, cap) && nodes == waves[|waves0|].snapshot)
    && (!CutShort(env, waves) ==>
          && AtTop(env, initial, nodes, waves, cap, t, previous, limit, rank, level, sails)
          && Measure(nodes) < Measure(head))
  }

  lemma {:induction false} Advance(env: Environment, initial: seq<ExecutionNode>, head: seq<ExecutionNode>, waves: seq<Wave>,
                                   cap: nat, t0: nat, previous0: map<string, PreviousFailure>, rank: map<string, nat>,
                                   level: nat, sails: bool, runnable: seq<nat>, w: Wave, t: nat,
                                   previous: map<string, PreviousFailure>, active: seq<nat>)
    requires AtHead(env, initial, head, waves, cap, t0, previous0, None, rank, level, sails) && !env.Aborted(t0)
    requires ChoiceUpTo(head, runnable, |head|) && (sails ==> Cooperative(env, initial))
    requires WaveResult(env, initial, head, if |runnable| > cap then runnable[..cap] else runnable, cap, t0, previous0, w, t,
                        previous, active)
    ensures |w.after| == |head| && (CutShort(env, waves + [w]) <==> env.Aborted(DoneAt(w)))
    ensures StepResult(env, initial, head, waves, cap, w.after, waves + [w], t, previous, w.limit,
                       ExtendRank(rank, head, w.after, level), level + 1, sails)
  {
    var all := waves + [w];
    assert |all| == |waves| + 1 && all[|waves|] == w && all[..|waves|] == waves;
    WaveKeepsSafe(initial, head, waves, cap, previous0, w, w.after);
    TakesFirstOfChoice(head, runnable, cap, w);
    ChainedSnoc(env, initial, waves, cap, w);
    if !env.Aborted(DoneAt(w)) {
      WaveStaysOnCourse(initial, head, waves, cap, previous0, rank, level, sails, w, w.after, previous, active, w.limit);
    }
  }

  /** Runs the wave of the first runnable nodes, as many as the cap allows. */
  method NextWave(env: Environment, head: seq<ExecutionNode>, runnable: seq<nat>, waves0: seq<Wave>, cap: nat, t0: nat,
                  previous0: map<string, PreviousFailure>,
                  ghost initial: seq<ExecutionNode>, ghost rank0: map<string, nat>, ghost level0: nat, ghost sails: bool)
    returns (cancelled: bool, nodes: seq<ExecutionNode>, waves: seq<Wave>, t: nat, previous: map<string, PreviousFailure>,
             limit: Option<string>, ghost rank: map<string, nat>, ghost level: nat)
    requires AtHead(env, initial, head, waves0, cap, t0, previous0, None, rank0, level0, sails)
    requires cap > 0 && !env.Aborted(t0) && (sails ==> Cooperative(env, initial))
    requires ChoiceUpTo(head, runnable, |head|) && runnable != []
    ensures StepResult(env, initial, head, waves0, cap, nodes, waves, t, previous, limit, rank, level, sails)
    ensures cancelled <==> CutShort(env, waves)
  {
    var wave := if |runnable| > cap then runnable[..cap] else runnable;
    TakeWave(head, runnable, wave);
    SameAsInitial(initial, head);
    var w;
    ghost var active;
    cancelled, w, t, previous, active := RunOneWave(env, head, wave, cap, t0, previous0, initial);
    Advance(env, initial, head, waves0, cap, t0, previous0, rank0, level0, sails, runnable, w, t, previous, active);
    nodes, waves, limit := w.after, waves0 + [w], w.limit;
    rank, level := ExtendRank(rank0, head, nodes, level0), level0 + 1;
  }

  /** Every node still queued is blocked, nothing else changes. */
  ghost predicate StalledFrom(head: seq<ExecutionNode>, nodes: seq<ExecutionNode>) {
    && |nodes| == |head|
    && forall k :: 0 <= k < |nodes| ==>
         nodes[k] == if head[k].status == Queued then head[k].(status := Blocked) else head[k]
  }

  lemma StalledAreTerminal(before: seq<ExecutionNode>, nodes: seq<ExecutionNode>)
    requires AtRest(before) && StalledFrom(before, nodes)
    ensures AllTerminal(nodes)
  {
    forall k | 0 <= k < |nodes| ensures Terminal(nodes[k]) {
      assert before[k].status in {Queued, Passed, Blocked};
    }
  }

  /** How a run ends. A run whose last calls ended after the abort returns the plan with their nodes
      still running. Otherwise it ends at the head of an iteration: cancelled if the caller has
      aborted by then, with every node passed or blocked if that is so, and with its queued nodes
      blocked as stalled if none of them can run; this happens only to a plan that cannot complete. */
  ghost predicate EndsAs(env: Environment, initial: seq<ExecutionNode>, waves: seq<Wave>, head: seq<ExecutionNode>, r: PlanResult) {
    if CutShort(env, waves) then r.status == PlanCancelled && r.nodes == waves[|waves| - 1].snapshot
    else
      && HeadOf(LeftBy(initial, waves, |waves|), LimitAfter(waves), head)
      && (if env.Aborted(ClockAfter(env, waves, |waves|)) then r.status == PlanCancelled && r.nodes == head
          else
            && r.status != PlanCancelled
            && (if AllTerminal(head) then r.nodes == head
                else
                  && (forall k :: 0 <= k < |head| ==> !Ready(head, k))
                  && StalledFrom(head, r.nodes) && !Completable(initial)))
  }

  /** What a whole run establishes. `RunSafe` is its safety and `EndsAs` says exactly how it ends
      (both are spelled out in PlanGuarantees). A run that is not cancelled ends with every node passed
      or blocked and reports `passed` exactly when every node passed. Only a plan with an acyclic
      order over runnable nodes can pass, and under a cooperative environment every such plan does. */
  ghost predicate PlanOutcome(env: Environment, initial: seq<ExecutionNode>, waves: seq<Wave>, cap: nat, head: seq<ExecutionNode>,
                              r: PlanResult) {
    && RunSafe(env, initial, r.nodes, waves, cap)
    && EndsAs(env, initial, waves, head, r) && r == ResultOf(r.nodes, r.status)
    && (r.status != PlanCancelled ==> AllTerminal(r.nodes) && (r.status == PlanPassed <==> AllPassed(r.nodes)))
    && (r.status == PlanPassed ==> Completable(initial))
    && (Cooperative(env, initial) && Completable(initial) ==> r.status == PlanPassed)
  }

  /** One iteration of the main loop. */
  method RunIteration(env: Environment, top: seq<ExecutionNode>, waves0: seq<Wave>, cap: nat, t0: nat,
                      previous0: map<string, PreviousFailure>, limit0: Option<string>,
                      ghost initial: seq<ExecutionNode>, ghost rank0: map<string, nat>, ghost level0: nat, ghost sails: bool)
    returns (step: Step, nodes: seq<ExecutionNode>, waves: seq<Wave>, t: nat, previous: map<string, PreviousFailure>,
             limit: Option<string>, ghost rank: map<string, nat>, ghost level: nat, ghost head: seq<ExecutionNode>)
    requires AtTop(env, initial, top, waves0, cap, t0, previous0, limit0, rank0, level0, sails)
    requires cap > 0 && (sails ==> Cooperative(env, initial))
    ensures step.Ended? ==> Concluded(env, initial, waves, cap, head, nodes, sails)
    ensures step.Cancelled? ==> PlanOutcome(env, initial, waves, cap, head, ResultOf(nodes, PlanCancelled))
    ensures step.Finished? ==>
      AtTop(env, initial, nodes, waves, cap, t, previous, limit, rank, level, sails) && Measure(nodes) < Measure(top)
  {
    waves, t, previous, limit, rank, level := waves0, t0, previous0, limit0, rank0, level0;
    nodes := BlockBeforeWave(top, limit);
    head := nodes;
    BlockingReachesHead(env, initial, top, waves, cap, t, previous, limit, rank, level, sails, nodes);
    if env.Aborted(t) {
      AbortedOutcome(env, initial, waves, cap, t, previous, limit, rank, level, sails, head);
      step := Cancelled;
    } else if forall k :: 0 <= k < |nodes| ==> Terminal(nodes[k]) {
      ConcludeTerminal(env, initial, waves, cap, head, t, previous, limit, rank, level, sails);
      step := Ended;
    } else {
      var runnable := GetRunnableExecutionNodes(nodes);
      EmptyChoice(nodes, runnable);
      if |runnable| == 0 {
        nodes := BlockStalledNodes(nodes);
        ConcludeStalled(env, initial, waves, cap, head, t, previous, limit, rank, level, sails, nodes);
        step := Ended;
      } else {
        NoLimitWhileQueued(nodes, runnable, limit);
        var cancelled;
        cancelled, nodes, waves, t, previous, limit, rank, level :=
          NextWave(env, nodes, runnable, waves, cap, t, previous, initial, rank, level, sails);
        if cancelled {
          CutShortOutcome(env, initial, waves0, waves, cap, head, nodes, t, previous, limit, rank, level, sails);
          step := Cancelled;
        } else {
          step := Finished;
        }
      }
    }
  }

  /** Runs the plan to its end, for every behaviour of the environment. */
  method ExecuteExecutionNodePlan(initial: seq<ExecutionNode>, env: Environment, maxParallelNodes: Option<real>)
    returns (r: PlanResult, waves: seq<Wave>, ghost head: seq<ExecutionNode>)
    requires Valid(initial)
    ensures PlanOutcome(env, initial, waves, ClampParallelism(maxParallelNodes), head, r)
  {
    var cap := ClampParallelism(maxParallelNodes);
    var previous := InitialPrevious(initial);
    var nodes := RecoverInterruptedNodes(initial);
    var limit: Option<string>, t := None, 0;
    waves := [];
    ghost var rank: map<string, nat>, level: nat := map[], 0;
    ghost var sails := Cooperative(env, initial) && Completable(initial);
    StartAtTop(env, initial, nodes, cap, previous, sails);
    while true
      invariant AtTop(env, initial, nodes, waves, cap, t, previous, limit, rank, level, sails)
      decreases Measure(nodes)
    {
      var step;
      step, nodes, waves, t, previous, limit, rank, level, head :=
        RunIteration(env, nodes, waves, cap, t, previous, limit, initial, rank, level, sails);
      if step == Cancelled {
        r := ResultOf(nodes, PlanCancelled);
        return;
      }
      if step == Ended {
        break;
      }
    }
    var hasBlocked := exists k :: 0 <= k < |nodes| && nodes[k].status == Blocked;
    r := ResultOf(nodes, if hasBlocked then PlanBlocked else PlanPassed);
    ConcludedOutcome(env, initial, waves, cap, head, nodes, sails, r);
  }

  lemma StartAtTop(env: Environment, initial: seq<ExecutionNode>, nodes: seq<ExecutionNode>, cap: nat,
                   previous: map<string, PreviousFailure>, sails: bool)
    requires Valid(initial) && Valid(nodes) && |nodes| == |initial|
    requires forall k :: 0 <= k < |nodes| ==> nodes[k] == Recovered(initial[k])
    requires previous == InitialPrevious(initial) && (sails ==> Completable(initial))
    ensures AtTop(env, initial, nodes, [], cap, 0, previous, None, map[], 0, sails)
  {
    Begin(initial, nodes, cap, previous);
    BeginsSailing(initial, nodes);
    assert nodes == LeftBy(initial, [], 0);
  }

  lemma BlockingReachesHead(env: Environment, initial: seq<ExecutionNode>, top: seq<ExecutionNode>, waves: seq<Wave>, cap: nat,
                            t: nat, previous: map<string, PreviousFailure>, limit: Option<string>,
                            rank: map<string, nat>, level: nat, sails: bool, head: seq<ExecutionNode>)
    requires AtTop(env, initial, top, waves, cap, t, previous, limit, rank, level, sails)
    requires Valid(head) && OnlyBlocks(top, head) && HeadOf(top, limit, head) && Quiet(head)
    requires limit.Some? ==> forall k :: 0 <= k < |head| ==> head[k].status != Queued
    ensures AtHead(env, initial, head, waves, cap, t, previous, limit, rank, level, sails) && Measure(head) <= Measure(top)
  {
    BlockingStaysOnCourse(initial, top, waves, cap, previous, limit, rank, level, sails, head);
  }

  lemma AbortedOutcome(env: Environment, initial: seq<ExecutionNode>, waves: seq<Wave>, cap: nat, t: nat,
                       previous: map<string, PreviousFailure>, limit: Option<string>,
                       rank: map<string, nat>, level: nat, sails: bool, head: seq<ExecutionNode>)
    requires AtHead(env, initial, head, waves, cap, t, previous, limit, rank, level, sails) && env.Aborted(t)
    ensures PlanOutcome(env, initial, waves, cap, head, ResultOf(head, PlanCancelled))
  {
  }

  lemma CutShortOutcome(env: Environment, initial: seq<ExecutionNode>, earlier: seq<Wave>, waves: seq<Wave>, cap: nat,
                        head: seq<ExecutionNode>, nodes: seq<ExecutionNode>, t: nat, previous: map<string, PreviousFailure>,
                        limit: Option<string>, rank: map<string, nat>, level: nat, sails: bool)
    requires StepResult(env, initial, head, earlier, cap, nodes, waves, t, previous, limit, rank, level, sails)
    requires CutShort(env, waves)
    ensures PlanOutcome(env, initial, waves, cap, head, ResultOf(nodes, PlanCancelled))
  {
  }

  lemma ConcludedOutcome(env: Environment, initial: seq<ExecutionNode>, waves: seq<Wave>, cap: nat,
                         head: seq<ExecutionNode>, nodes: seq<ExecutionNode>, sails: bool, r: PlanResult)
    requires Concluded(env, initial, waves, cap, head, nodes, sails)
    requires sails == (Cooperative(env, initial) && Completable(initial))
    requires r == ResultOf(nodes, if exists k :: 0 <= k < |nodes| && nodes[k].status == Blocked then PlanBlocked else PlanPassed)
    ensures PlanOutcome(env, initial, waves, cap, head, r)
  {
    BlockedUnlessPassed(nodes);
  }

  lemma BlockedUnlessPassed(nodes: seq<ExecutionNode>)
    requires AllTerminal(nodes)
    ensures (exists k :: 0 <= k < |nodes| && nodes[k].status == Blocked) <==> !AllPassed(nodes)
  {
    forall k | 0 <= k < |nodes| ensures nodes[k].status == Passed || nodes[k].status == Blocked {
      assert Terminal(nodes[k]);
    }
  }

  lemma NoLimitWhileQueued(nodes: seq<ExecutionNode>, runnable: seq<nat>, limit: Option<string>)
    requires AllReady(nodes, runnable) && runnable != []
    requires limit.Some? ==> forall k :: 0 <= k < |nodes| ==> nodes[k].status != Queued
    ensures limit.None?
  {
    assert Ready(nodes, runnable[0]);
  }

  lemma TakeWave(nodes: seq<ExecutionNode>, runnable: seq<nat>, wave: seq<nat>)
    requires ChoiceUpTo(nodes, runnable, |nodes|) && wave <= runnable
    ensures AllReady(nodes, wave) && Increasing(wave) && DisjointFiles(nodes, wave)
  {
    assert forall i :: 0 <= i < |wave| ==> wave[i] == runnable[i];
  }
}
