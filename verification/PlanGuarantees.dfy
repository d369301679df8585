/** What `RunSafe` and `EndsAs` say of a whole run of the plan coordinator: its safety, what an abort
    does to it, why its nodes are blocked, and which nodes exceed their own attempt limit
    (execution-node-coordinator.ts:338-525). */
module PlanGuarantees {
  import opened Options
  import opened ExecutionNodes
  import opened PlanBlocking
  import opened PlanWaves
  import opened PlanSettlement
  import opened PlanRuns
  import opened PlanTraces
  import opened PlanProgress
  import opened PlanCoordinator

  /** The call has the result `runNode` gave, and the environment authorized its start. */
  ghost predicate CallBacked(env: Environment, w: Wave, c: nat)
    requires c < |w.calls|
  {
    var k := w.calls[c].pos;
    && k < |w.before| && w.calls[c].result == env.run(RunAt(w) + c)
    && exists i :: 0 <= i < |w.asks| && w.asks[i].pos == k && Authorize(env, w.before[k], w.startAt + i).allowed
  }

  /** In this wave `runNode` returned `passed` for node `k` and its completion was authorized. */
  ghost predicate PassBacked(env: Environment, w: Wave, k: nat) {
    && k < |w.snapshot|
    && exists c :: 0 <= c < |w.calls| && c < |w.completions| && w.calls[c].pos == k
                   && ReturnsPassed(env.run(RunAt(w) + c)) && Authorize(env, w.snapshot[k], w.completions[c].at).allowed
  }

  predicate ReturnsPassed(result: RunResult) { result.Returned? && result.outcome.status == Passed }

  lemma CallIsBacked(env: Environment, w: Wave, cap: nat, c: nat)
    requires Genuine(env, w) && WaveSafe(w, cap) && c < |w.calls|
    ensures CallBacked(env, w, c)
  {
    var call := w.calls[c];
    assert CallSafe(w, call) && CallGenuine(env, w, c);
    var i :| 0 <= i < |w.asks| && w.asks[i] == Ask(call.pos, call.attempt, true);
    assert AskGenuine(env, w, i);
  }

  lemma PassIsBacked(env: Environment, w: Wave, k: nat)
    requires Genuine(env, w) && PassedIn(w, k)
    ensures PassBacked(env, w, k)
  {
    var c :| 0 <= c < |w.calls| && c < |w.completions| && w.calls[c].pos == k
      && w.calls[c].result.Returned? && w.calls[c].result.outcome.status == Passed && w.completions[c].allowed;
    assert CallGenuine(env, w, c) && CompletionGenuine(env, w, c);
  }

  /** What `RunSafe` says of a whole run about its environment: `Genuine` spelled out. */
  lemma RunIsBacked(env: Environment, initial: seq<ExecutionNode>, nodes: seq<ExecutionNode>, waves: seq<Wave>, cap: nat)
    requires RunSafe(env, initial, nodes, waves, cap)
    // every call is authorized for its start, and its result is what `runNode` gave
    ensures forall w, c :: 0 <= w < |waves| && 0 <= c < |waves[w].calls| ==> CallBacked(env, waves[w], c)
    // every member of a wave is asked about in its turn, and run exactly when the answer allows it
    ensures forall w, i :: 0 <= w < |waves| && 0 <= i < |waves[w].asks| ==>
      var v := waves[w];
      |v.snapshot| == |v.before| && AskGenuine(env, v, i)
    // every wave takes the first of the nodes that may start, as many as the cap allows
    ensures forall w :: 0 <= w < |waves| ==> TakesFirst(waves[w].before, cap, waves[w])
    // nothing passes without a run that returned `passed` and an authorized completion
    ensures forall k :: 0 <= k < |nodes| && nodes[k].status == Passed && initial[k].status != Passed ==>
      exists w :: 0 <= w < |waves| && PassBacked(env, waves[w], k)
  {
    forall w | 0 <= w < |waves|
      ensures Genuine(env, waves[w]) && TakesFirst(waves[w].before, cap, waves[w]) && WaveSafe(waves[w], cap)
    {
      assert WaveInRun(env, initial, waves, cap, w);
    }
    forall w, c | 0 <= w < |waves| && 0 <= c < |waves[w].calls| ensures CallBacked(env, waves[w], c) {
      CallIsBacked(env, waves[w], cap, c);
    }
    forall k | 0 <= k < |nodes| && nodes[k].status == Passed && initial[k].status != Passed
      ensures exists w :: 0 <= w < |waves| && PassBacked(env, waves[w], k)
    {
      var w :| 0 <= w < |waves| && PassedIn(waves[w], k);
      PassIsBacked(env, waves[w], k);
    }
  }

  /** What `RunSafe` says of a whole run, waves `0 .. |waves|` in the order they ran. */
  lemma RunGuarantees(env: Environment, initial: seq<ExecutionNode>, nodes: seq<ExecutionNode>, waves: seq<Wave>, cap: nat)
    requires RunSafe(env, initial, nodes, waves, cap)
    // no more than `cap` members, pairwise disjoint in files
    ensures forall w :: 0 <= w < |waves| ==> |waves[w].calls| <= |waves[w].asks| <= cap
    ensures forall w, c, d :: 0 <= w < |waves| && 0 <= c < d < |waves[w].calls| ==>
      CallSafe(waves[w], waves[w].calls[c]) && CallSafe(waves[w], waves[w].calls[d])
      && waves[w].snapshot[waves[w].calls[c].pos].files !! waves[w].snapshot[waves[w].calls[d].pos].files
    // after a rate limit no later wave exists
    ensures forall w :: 0 <= w < |waves| - 1 ==> forall c :: 0 <= c < |waves[w].calls| ==> !waves[w].calls[c].result.RateLimited?
    // a node is run exactly as often as its attempts grow, and never beyond its budget
    ensures forall k :: 0 <= k < |nodes| ==>
      Runs(waves, k) == nodes[k].attempts - initial[k].attempts && Runs(waves, k) <= RunBudget(initial[k])
    // what has passed or been blocked stays so, from any wave to any later one and to the end
    ensures forall k :: 0 <= k < |nodes| && Terminal(initial[k]) ==> nodes[k] == initial[k]
    ensures forall w, k :: 0 <= w < |waves| && 0 <= k < |nodes| ==>
      |waves[w].snapshot| == |nodes| && (Terminal(waves[w].snapshot[k]) ==> nodes[k] == waves[w].snapshot[k])
    ensures forall v, w, k :: 0 <= v < w < |waves| && 0 <= k < |nodes| ==>
      Terminal(waves[v].snapshot[k]) ==> waves[w].snapshot[k] == waves[v].snapshot[k]
    // every call and every pass is backed by the environment
    ensures forall w, c :: 0 <= w < |waves| && 0 <= c < |waves[w].calls| ==> CallBacked(env, waves[w], c)
    ensures forall k :: 0 <= k < |nodes| && nodes[k].status == Passed && initial[k].status != Passed ==>
      exists w :: 0 <= w < |waves| && PassBacked(env, waves[w], k)
  {
    RunIsBacked(env, initial, nodes, waves, cap);
    SameAsInitial(initial, nodes);
    forall w, k | 0 <= w < |waves| && 0 <= k < |nodes|
      ensures |waves[w].snapshot| == |nodes| && (Terminal(waves[w].snapshot[k]) ==> nodes[k] == waves[w].snapshot[k])
    {
      assert Evolves(waves[w].snapshot, nodes);
      assert NodeEvolves(waves[w].snapshot[k], nodes[k]);
    }
    forall v, w, k | 0 <= v < w < |waves| && 0 <= k < |nodes| && Terminal(waves[v].snapshot[k])
      ensures waves[w].snapshot[k] == waves[v].snapshot[k]
    {
      assert Evolves(waves[v].snapshot, waves[w].snapshot);
      assert NodeEvolves(waves[v].snapshot[k], waves[w].snapshot[k]);
    }
    forall w | 0 <= w < |waves| - 1
      ensures forall c :: 0 <= c < |waves[w].calls| ==> !waves[w].calls[c].result.RateLimited?
    {
      assert WaveSafe(waves[w], cap) && Evolves(waves[w].snapshot, waves[|waves| - 1].snapshot);
    }
  }

  // ---- Cancellation ----

  lemma CutShortClock(env: Environment, initial: seq<ExecutionNode>, waves: seq<Wave>, cap: nat)
    requires Chained(env, initial, waves, cap) && CutShort(env, waves)
    ensures var w := waves[|waves| - 1]; w.completions == [] && ClockAfter(env, waves, |waves|) == DoneAt(w)
  {
    assert WaveInRun(env, initial, waves, cap, |waves| - 1);
  }

  /** A run is cancelled exactly when the caller has aborted by the time it ends; no wave starts once
      he has, no call is made whose start was not authorized before, and nothing is settled when he
      has before the last call ended. */
  lemma {:induction false} Cancellation(env: Environment, initial: seq<ExecutionNode>, waves: seq<Wave>, cap: nat,
                                        head: seq<ExecutionNode>, r: PlanResult)
    requires RunSafe(env, initial, r.nodes, waves, cap) && EndsAs(env, initial, waves, head, r)
    ensures r.status == PlanCancelled <==> env.Aborted(ClockAfter(env, waves, |waves|))
    ensures env.abortAt == Some(0) ==> r.status == PlanCancelled && waves == [] && BlockedExactly(RecoveredPlan(initial), r.nodes)
    ensures forall w :: 0 <= w < |waves| ==> !env.Aborted(waves[w].startAt)
    ensures forall w, c :: 0 <= w < |waves| && 0 <= c < |waves[w].calls| ==> CalledBeforeAbort(env, waves[w], c)
    ensures forall w :: 0 <= w < |waves| && env.Aborted(DoneAt(waves[w])) ==>
      w == |waves| - 1 && waves[w].completions == [] && r.nodes == waves[w].snapshot
  {
    WavesMeetAbort(env, initial, waves, cap);
    CallsPrecedeAbort(env, initial, r.nodes, waves, cap);
    CancelledIff(env, initial, waves, cap, head, r);
  }

  lemma {:induction false} CancelledIff(env: Environment, initial: seq<ExecutionNode>, waves: seq<Wave>, cap: nat,
                                        head: seq<ExecutionNode>, r: PlanResult)
    requires Chained(env, initial, waves, cap) && EndsAs(env, initial, waves, head, r)
    ensures r.status == PlanCancelled <==> env.Aborted(ClockAfter(env, waves, |waves|))
  {
    if CutShort(env, waves) {
      CutShortClock(env, initial, waves, cap);
    }
  }

  lemma {:induction false} CallsPrecedeAbort(env: Environment, initial: seq<ExecutionNode>, nodes: seq<ExecutionNode>,
                                             waves: seq<Wave>, cap: nat)
    requires RunSafe(env, initial, nodes, waves, cap)
    ensures forall w, c :: 0 <= w < |waves| && 0 <= c < |waves[w].calls| ==> CalledBeforeAbort(env, waves[w], c)
  {
    forall w, c | 0 <= w < |waves| && 0 <= c < |waves[w].calls| ensures CalledBeforeAbort(env, waves[w], c) {
      assert WaveInRun(env, initial, waves, cap, w);
      CallPrecedesAbort(env, waves[w], cap, c);
    }
  }

  lemma {:induction false} WavesMeetAbort(env: Environment, initial: seq<ExecutionNode>, waves: seq<Wave>, cap: nat)
    requires Chained(env, initial, waves, cap)
    ensures forall w :: 0 <= w < |waves| ==>
      && !env.Aborted(waves[w].startAt) && (w == 0 ==> waves[w].startAt == 0)
      && (env.Aborted(DoneAt(waves[w])) ==> w == |waves| - 1 && waves[w].completions == [])
  {
    forall w | 0 <= w < |waves|
      ensures !env.Aborted(waves[w].startAt) && (w == 0 ==> waves[w].startAt == 0)
      ensures env.Aborted(DoneAt(waves[w])) ==> w == |waves| - 1 && waves[w].completions == []
    {
      WaveMeetsAbort(env, initial, waves, cap, w);
    }
  }

  lemma WaveMeetsAbort(env: Environment, initial: seq<ExecutionNode>, waves: seq<Wave>, cap: nat, w: nat)
    requires Chained(env, initial, waves, cap) && w < |waves|
    ensures !env.Aborted(waves[w].startAt) && (w == 0 ==> waves[w].startAt == 0)
    ensures env.Aborted(DoneAt(waves[w])) ==> w == |waves| - 1 && waves[w].completions == []
  {
    assert WaveInRun(env, initial, waves, cap, w);
  }

  /** The start of the call was authorized at a time at which the caller had not aborted. */
  ghost predicate CalledBeforeAbort(env: Environment, w: Wave, c: nat)
    requires c < |w.calls|
  {
    exists i: nat :: i < |w.asks| && w.asks[i].pos == w.calls[c].pos && !env.Aborted(w.startAt + i)
  }

  lemma CallPrecedesAbort(env: Environment, w: Wave, cap: nat, c: nat)
    requires Genuine(env, w) && WaveSafe(w, cap) && c < |w.calls|
    ensures CalledBeforeAbort(env, w, c)
  {
    CallIsBacked(env, w, cap, c);
    var i: nat :| i < |w.asks| && w.asks[i].pos == w.calls[c].pos
      && Authorize(env, w.before[w.calls[c].pos], w.startAt + i).allowed;
  }

  /** Over the whole run: the abort blocks some node exactly when it falls, in some wave, between the
      first start authorization and the runs, or between the runs and the last time the settlement
      consults it. Before, between and after these stretches it blocks nobody. */
  lemma AbortBlocksRunIff(env: Environment, initial: seq<ExecutionNode>, nodes: seq<ExecutionNode>, waves: seq<Wave>, cap: nat)
    requires RunSafe(env, initial, nodes, waves, cap)
    ensures (exists w :: 0 <= w < |waves| && AbortBlocksIn(env, waves[w])) <==>
              env.abortAt.Some? && exists w :: 0 <= w < |waves| && HarmfulAt(waves[w], env.abortAt.value)
  {
    forall w | 0 <= w < |waves|
      ensures AbortBlocksIn(env, waves[w]) <==> env.abortAt.Some? && HarmfulAt(waves[w], env.abortAt.value)
    {
      assert WaveInRun(env, initial, waves, cap, w);
      AbortBlocksIff(env, waves[w]);
    }
  }

  ghost predicate AbortBlocksIn(env: Environment, w: Wave) { exists k :: AbortBlocks(env, w, k) }

  // ---- Why a node is blocked ----

  /** The wave itself blocked node `k`: a start or a completion was refused, or the run ended
      blocked, or it failed and could not or must not be tried again. */
  ghost predicate BlockedInWave(env: Environment, w: Wave, k: nat) {
    || (exists i :: 0 <= i < |w.asks| && w.asks[i].pos == k && !w.asks[i].allowed)
    || (exists c :: 0 <= c < |w.completions| && c < |w.calls| && w.calls[c].pos == k
                    && k < |w.snapshot| && NotSettledWell(w.snapshot[k], w.calls[c], w.limit, w.completions[c]))
  }

  ghost predicate NotSettledWell(n: ExecutionNode, call: Call, limit: Option<string>, completion: Completion) {
    var o := Resolve(call.result, limit);
    || !completion.allowed
    || o.status == Blocked
    || (o.status == Failed && (limit.Some? || !HasAttemptsLeft(FailedNode(n, o)) || completion.retry == Some(false)))
  }

  ghost predicate Cause(env: Environment, initial: seq<ExecutionNode>, waves: seq<Wave>, k: nat)
    requires k < |initial|
  {
    || Recovered(initial[k]).status == Blocked
    || (exists w :: 0 <= w < |waves| && BlockedInWave(env, waves[w], k))
    || (exists w: nat :: DoomedAfter(initial, waves, w, k))
  }

  ghost predicate WaitsIn(plan: seq<ExecutionNode>, k: nat) { k < |plan| && plan[k].status == Queued }

  ghost predicate DoomedAfter(initial: seq<ExecutionNode>, waves: seq<Wave>, w: nat, k: nat) {
    w <= |waves| && CannotPass(LeftBy(initial, waves, w), k)
  }

  lemma SettledBlockedWhy(env: Environment, w: Wave, c: nat)
    requires Genuine(env, w) && c < |w.calls| && c < |w.completions|
    requires w.calls[c].pos < |w.after| && w.after[w.calls[c].pos].status == Blocked
    ensures BlockedInWave(env, w, w.calls[c].pos)
  {
    assert CompletionGenuine(env, w, c) && CallGenuine(env, w, c);
    var k := w.calls[c].pos;
    assert NotSettledWell(w.snapshot[k], w.calls[c], w.limit, w.completions[c]);
  }

  lemma WaveBlockedWhy(env: Environment, w: Wave, k: nat)
    requires Genuine(env, w) && k < |w.before| && w.before[k].status != Blocked && w.after[k].status == Blocked
    ensures BlockedInWave(env, w, k)
  {
    if AskedAbout(w, k) {
      var i :| 0 <= i < |w.asks| && w.asks[i].pos == k;
      assert AskGenuine(env, w, i);
      if w.asks[i].allowed {
        var c :| 0 <= c < |w.calls| && w.calls[c].pos == k;
        assert w.snapshot[k].status == Running;
        assert w.completions != [];
        SettledBlockedWhy(env, w, c);
      }
    } else {
      assert w.snapshot[k] == w.before[k];
      if c :| 0 <= c < |w.calls| && c < |w.completions| && w.calls[c].pos == k {
        SettledBlockedWhy(env, w, c);
      }
    }
  }

  /** `cause` covers every way in which node `k` may come to be blocked. */
  ghost predicate Covers(env: Environment, initial: seq<ExecutionNode>, waves: seq<Wave>, k: nat, cause: bool) {
    && (k < |initial| && Recovered(initial[k]).status == Blocked ==> cause)
    && (forall w :: 0 <= w < |waves| && BlockedInWave(env, waves[w], k) ==> cause)
    && (forall w: nat :: DoomedAfter(initial, waves, w, k) ==> cause)
  }

  ghost predicate BlockedOnlyIf(plan: seq<ExecutionNode>, n: nat, k: nat, cause: bool) {
    |plan| == n && (k < n && plan[k].status == Blocked ==> cause)
  }

  /** Every stage of the run blocks node `k` only for a cause. */
  ghost predicate StepsCovered(initial: seq<ExecutionNode>, waves: seq<Wave>, k: nat, cause: bool) {
    && BlockedOnlyIf(LeftBy(initial, waves, 0), |initial|, k, cause)
    && forall w: nat :: StepCovered(initial, waves, k, cause, w)
  }

  ghost predicate StepCovered(initial: seq<ExecutionNode>, waves: seq<Wave>, k: nat, cause: bool, w: nat) {
    w < |waves| && BlockedOnlyIf(LeftBy(initial, waves, w), |initial|, k, cause) ==>
      BlockedOnlyIf(LeftBy(initial, waves, w + 1), |initial|, k, cause)
  }

  lemma {:induction false} BlockedThroughout(initial: seq<ExecutionNode>, waves: seq<Wave>, w: nat, k: nat, cause: bool)
    requires StepsCovered(initial, waves, k, cause) && w <= |waves|
    ensures BlockedOnlyIf(LeftBy(initial, waves, w), |initial|, k, cause)
    decreases w
  {
    if w > 0 {
      BlockedThroughout(initial, waves, w - 1, k, cause);
      assert StepCovered(initial, waves, k, cause, w - 1);
    }
  }

  lemma {:induction false} LeftBlockedWhy(env: Environment, initial: seq<ExecutionNode>, waves: seq<Wave>, cap: nat, k: nat, cause: bool)
    requires Chained(env, initial, waves, cap) && k < |initial| && Covers(env, initial, waves, k, cause)
    ensures BlockedOnlyIf(LeftBy(initial, waves, |waves|), |initial|, k, cause)
  {
    forall w: nat ensures StepCovered(initial, waves, k, cause, w) {
      if w < |waves| && BlockedOnlyIf(LeftBy(initial, waves, w), |initial|, k, cause) {
        assert WaveInRun(env, initial, waves, cap, w);
        StepBlockedWhy(env, initial, waves, cap, w, k, cause);
      }
    }
    BlockedThroughout(initial, waves, |waves|, k, cause);
  }

  lemma {:induction false} StepBlockedWhy(env: Environment, initial: seq<ExecutionNode>, waves: seq<Wave>, cap: nat, w: nat, k: nat,
                                          cause: bool)
    requires w < |waves| && WaveInRun(env, initial, waves, cap, w) && k < |LeftBy(initial, waves, w)|
    requires LeftBy(initial, waves, w)[k].status == Blocked || DoomedAfter(initial, waves, w, k) ==> cause
    requires BlockedInWave(env, waves[w], k) ==> cause
    ensures |LeftBy(initial, waves, w + 1)| == |LeftBy(initial, waves, w)|
    ensures LeftBy(initial, waves, w + 1)[k].status == Blocked ==> cause
  {
    HeadBlockedWhy(env, initial, waves, w, waves[w].before, k, cause);
    NextBlockedWhy(env, waves[w], k, cause);
  }

  lemma {:induction false} NextBlockedWhy(env: Environment, w: Wave, k: nat, cause: bool)
    requires Genuine(env, w) && k < |w.before|
    requires w.before[k].status == Blocked || BlockedInWave(env, w, k) ==> cause
    ensures |w.after| == |w.before| && (w.after[k].status == Blocked ==> cause)
  {
    if w.before[k].status != Blocked && w.after[k].status == Blocked {
      WaveBlockedWhy(env, w, k);
    }
  }

  lemma {:induction false} HeadBlockedWhy(env: Environment, initial: seq<ExecutionNode>, waves: seq<Wave>, w: nat,
                                          head: seq<ExecutionNode>, k: nat, cause: bool)
    requires w <= |waves| && k < |LeftBy(initial, waves, w)| && BlockedExactly(LeftBy(initial, waves, w), head)
    requires LeftBy(initial, waves, w)[k].status == Blocked || DoomedAfter(initial, waves, w, k) ==> cause
    ensures |head| == |LeftBy(initial, waves, w)| && (head[k].status == Blocked ==> cause)
  {
  }

  /** A node that ends blocked was blocked on recovery, in a wave, or because after some wave it could
      no longer pass; or it was waiting when a rate limit was recorded; or it stalled, which it does
      only in a plan that cannot complete. */
  lemma BlockedForCause(env: Environment, initial: seq<ExecutionNode>, waves: seq<Wave>, cap: nat, head: seq<ExecutionNode>,
                        r: PlanResult, k: nat)
    requires RunSafe(env, initial, r.nodes, waves, cap) && EndsAs(env, initial, waves, head, r)
    requires k < |initial| && r.nodes[k].status == Blocked
    ensures
      || Cause(env, initial, waves, k)
      || (LimitAfter(waves).Some? && WaitsIn(LeftBy(initial, waves, |waves|), k))
      || (!Completable(initial) && WaitsIn(head, k))
  {
    LeftBlockedWhy(env, initial, waves, cap, k, Cause(env, initial, waves, k));
    if CutShort(env, waves) {
      CutShortClock(env, initial, waves, cap);
      assert WaveInRun(env, initial, waves, cap, |waves| - 1);
    } else if LimitAfter(waves).None? {
      HeadBlockedWhy(env, initial, waves, |waves|, head, k, Cause(env, initial, waves, k));
    }
  }

  // ---- A node's own attempt limit ----

  predicate AtOwnLimit(n: ExecutionNode) { n.status == Queued && AttemptLimit(n) <= n.attempts < 3 }

  /** A queued node that stands at its own lower limit is still run, because the limit is consulted
      only before a retry and on recovery; every other node within its limit stays within it. */
  lemma OwnLimitKeptIff(env: Environment, initial: seq<ExecutionNode>, nodes: seq<ExecutionNode>, waves: seq<Wave>, cap: nat, k: nat)
    requires RunSafe(env, initial, nodes, waves, cap) && k < |nodes|
    ensures nodes[k].attempts <= AttemptLimit(nodes[k]) <==>
              initial[k].attempts <= AttemptLimit(initial[k]) && !(AtOwnLimit(initial[k]) && Runs(waves, k) > 0)
    ensures AtOwnLimit(initial[k]) && nodes[k].status == Passed ==> nodes[k].attempts > AttemptLimit(nodes[k])
  {
    SameAsInitial(initial, nodes);
    if nodes[k].status == Passed && AtOwnLimit(initial[k]) {
      PassedHasRun(RecoveredPlan(initial), nodes, k);
    }
  }

  lemma PassedHasRun(recovered: seq<ExecutionNode>, nodes: seq<ExecutionNode>, k: nat)
    requires Evolves(recovered, nodes) && k < |nodes|
    requires recovered[k].status == Queued && nodes[k].status == Passed
    ensures recovered[k].attempts < nodes[k].attempts
  {
    assert NodeEvolves(recovered[k], nodes[k]);
  }

  /** Under a cooperative environment a completable plan keeps a node to its own limit exactly when it
      was handed in within it and not queued at it; a node queued at it is run once more. */
  lemma OwnLimitIff(env: Environment, initial: seq<ExecutionNode>, waves: seq<Wave>, cap: nat, head: seq<ExecutionNode>,
                    r: PlanResult, k: nat)
    requires PlanOutcome(env, initial, waves, cap, head, r) && Cooperative(env, initial) && Completable(initial)
    requires k < |initial| == |r.nodes|
    ensures r.nodes[k].attempts <= AttemptLimit(r.nodes[k]) <==>
              initial[k].attempts <= AttemptLimit(initial[k]) && !AtOwnLimit(initial[k])
    ensures AtOwnLimit(initial[k]) ==> Runs(waves, k) == 1
  {
    OwnLimitKeptIff(env, initial, r.nodes, waves, cap, k);
  }

  /** Such plans exist: a single queued node with one attempt of the one it allows itself. */
  lemma OwnLimitExample()
    ensures var n := ExecutionNode("a", Queued, [], {}, false, 1, 0, Some(1), None);
      Valid([n]) && AtOwnLimit(n) && Completable([n])
  {
    var n := ExecutionNode("a", Queued, [], {}, false, 1, 0, Some(1), None);
    var rank: map<string, nat> := map["a" := 0];
    assert NodeRanked([n], rank, 0);
    assert Ranked([n], rank);
  }
}
