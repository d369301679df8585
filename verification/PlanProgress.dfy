/** Which plans can complete: an acyclic order over the nodes still to run is both what lets a
    cooperative run finish and what any run that finishes leaves behind. */
module PlanProgress {
  import opened Options
  import opened ExecutionNodes
  import opened PlanBlocking
  import opened PlanWaves
  import opened PlanSettlement
  import opened PlanRuns

  /** The dependency exists and either has already passed or comes before its dependent. */
  ghost predicate DependencyRanked(plan: seq<ExecutionNode>, rank: map<string, nat>, id: string, d: string) {
    exists j :: 0 <= j < |plan| && plan[j].id == d
      && (plan[j].status == Passed || (d in rank && id in rank && rank[d] < rank[id]))
  }

  ghost predicate NodeRanked(plan: seq<ExecutionNode>, rank: map<string, nat>, k: nat)
    requires k < |plan|
  {
    && RunBudget(plan[k]) > 0 && plan[k].id in rank
    && forall d :: d in plan[k].dependencies ==> DependencyRanked(plan, rank, plan[k].id, d)
  }

  ghost predicate Ranked(plan: seq<ExecutionNode>, rank: map<string, nat>) {
    forall k :: 0 <= k < |plan| && plan[k].status != Passed ==> NodeRanked(plan, rank, k)
  }

  /** Every node that has not passed may still be run, all its dependencies are known, and the
      dependencies among such nodes are acyclic. */
  ghost predicate Completable(plan: seq<ExecutionNode>) { exists rank :: Ranked(plan, rank) }

  /** Every authorization is granted, every run returns `passed`, and nobody aborts. */
  ghost predicate Cooperative(env: Environment, plan: seq<ExecutionNode>) {
    && env.abortAt.None?
    && (forall t :: env.run(t).Returned? && env.run(t).outcome.status == Passed)
    && (if env.authorizer then forall t :: env.reply(t) == Allow
        else forall k :: 0 <= k < |plan| ==> !plan[k].recipe)
  }

  ghost predicate AtRest(nodes: seq<ExecutionNode>) {
    forall k :: 0 <= k < |nodes| ==> nodes[k].status in {Queued, Passed, Blocked}
  }

  /** A queued node that has spent all three attempts was given to the coordinator like that. */
  ghost predicate Fresh(initial: seq<ExecutionNode>, nodes: seq<ExecutionNode>) {
    |nodes| == |initial|
    && forall k :: 0 <= k < |nodes| && nodes[k].status == Queued ==>
         initial[k].status != Passed
         && (nodes[k].attempts >= 3 ==> initial[k].status == Queued && initial[k].attempts >= 3)
  }

  /** With the impossible nodes already blocked, a completable plan that still has a queued node
      has one that is ready: nothing is ever left to `blockStalledNodes`. */
  lemma {:induction false} NeverStalled(initial: seq<ExecutionNode>, rank: map<string, nat>, nodes: seq<ExecutionNode>, k: nat)
    requires Ranked(initial, rank) && Valid(nodes) && AtRest(nodes) && Fresh(initial, nodes)
    requires forall m :: 0 <= m < |nodes| ==> SameNode(initial[m], nodes[m])
    requires forall m :: 0 <= m < |nodes| && initial[m].status == Passed ==> nodes[m].status == Passed
    requires forall m :: 0 <= m < |nodes| && nodes[m].status == Queued ==> !HasImpossibleDependency(nodes, nodes[m])
    requires k < |nodes| && nodes[k].status == Queued
    ensures exists m :: 0 <= m < |nodes| && Ready(nodes, m)
    decreases if initial[k].id in rank then rank[initial[k].id] else 0
  {
    assert NodeRanked(initial, rank, k);
    if !Ready(nodes, k) {
      var d :| d in nodes[k].dependencies
        && !(exists j :: 0 <= j < |nodes| && nodes[j].id == d && nodes[j].status == Passed);
      assert DependencyRanked(initial, rank, initial[k].id, d);
      var j :| 0 <= j < |initial| && initial[j].id == d
        && (initial[j].status == Passed || (d in rank && initial[k].id in rank && rank[d] < rank[initial[k].id]));
      assert nodes[j].id == d;
      assert nodes[j].status != Passed;
      FindAt(nodes, j);
      assert !Impossible(nodes, d);
      assert nodes[j].status != Blocked;
      NeverStalled(initial, rank, nodes, j);
    }
  }

  lemma {:induction false} NobodyDoomed(nodes: seq<ExecutionNode>, k: nat, n: nat)
    requires forall m :: 0 <= m < |nodes| && nodes[m].status == Queued ==> !HasImpossibleDependency(nodes, nodes[m])
    ensures !Doomed(nodes, k, n)
    decreases n
  {
    if n > 0 {
      var m: nat := n - 1;
      forall j: nat ensures !Doomed(nodes, j, m) {
        NobodyDoomed(nodes, j, m);
      }
    }
  }

  /** Nothing has been blocked so far. */
  ghost predicate Sailing(nodes: seq<ExecutionNode>) {
    forall k :: 0 <= k < |nodes| ==> nodes[k].status == Queued || nodes[k].status == Passed
  }

  lemma NothingImpossible(initial: seq<ExecutionNode>, rank: map<string, nat>, nodes: seq<ExecutionNode>, next: seq<ExecutionNode>)
    requires Ranked(initial, rank) && Sailing(nodes) && Fresh(initial, nodes) && BlockedExactly(nodes, next)
    requires forall m :: 0 <= m < |nodes| ==> SameNode(initial[m], nodes[m])
    ensures next == nodes
  {
    forall m | 0 <= m < |nodes| && nodes[m].status == Queued
      ensures !HasImpossibleDependency(nodes, nodes[m])
    {
      assert NodeRanked(initial, rank, m);
      forall d | d in nodes[m].dependencies ensures !Impossible(nodes, d) {
        assert DependencyRanked(initial, rank, initial[m].id, d);
        var j :| 0 <= j < |initial| && initial[j].id == d;
        assert nodes[j].id == d;
        assert Find(nodes, d).Some?;
      }
    }
    forall k: nat | k < |nodes| ensures !CannotPass(nodes, k) {
      forall n: nat ensures !Doomed(nodes, k, n) {
        NobodyDoomed(nodes, k, n);
      }
    }
  }

  // ---- Whatever the environment, the order in which nodes pass is a rank ----

  ghost predicate Justified(initial: seq<ExecutionNode>, nodes: seq<ExecutionNode>, rank: map<string, nat>, level: nat) {
    && |nodes| == |initial|
    && (forall id :: id in rank ==>
          && rank[id] < level
          && exists k :: 0 <= k < |nodes| && nodes[k].id == id && nodes[k].status == Passed)
    && (forall k :: 0 <= k < |nodes| && nodes[k].status == Passed && initial[k].status != Passed ==>
          NodeRanked(initial, rank, k))
  }

  ghost function NewlyPassed(before: seq<ExecutionNode>, after: seq<ExecutionNode>): set<string>
    requires |before| == |after|
  {
    set k | 0 <= k < |after| && after[k].status == Passed && before[k].status != Passed :: after[k].id
  }

  ghost function ExtendRank(rank: map<string, nat>, before: seq<ExecutionNode>, after: seq<ExecutionNode>, level: nat): map<string, nat>
    requires |before| == |after|
  {
    rank + map id | id in NewlyPassed(before, after) :: level
  }

  lemma RankKept(initial: seq<ExecutionNode>, before: seq<ExecutionNode>, after: seq<ExecutionNode>, rank: map<string, nat>,
                 level: nat, d: string)
    requires |before| == |after| && UniqueIds(before) && Evolves(before, after)
    requires exists j :: 0 <= j < |before| && before[j].id == d && before[j].status == Passed
    ensures d !in NewlyPassed(before, after)
    ensures d in rank ==> d in ExtendRank(rank, before, after, level) && ExtendRank(rank, before, after, level)[d] == rank[d]
  {
    var j :| 0 <= j < |before| && before[j].id == d && before[j].status == Passed;
    forall k | 0 <= k < |after| && after[k].status == Passed && before[k].status != Passed ensures after[k].id != d {
      assert NodeEvolves(before[k], after[k]);
    }
  }

  lemma OldNodeStaysRanked(initial: seq<ExecutionNode>, before: seq<ExecutionNode>, after: seq<ExecutionNode>,
                           rank: map<string, nat>, level: nat, k: nat)
    requires Justified(initial, before, rank, level) && UniqueIds(before) && Evolves(before, after)
    requires forall m :: 0 <= m < |before| ==> SameNode(initial[m], before[m])
    requires k < |initial| && before[k].status == Passed && NodeRanked(initial, rank, k)
    ensures NodeRanked(initial, ExtendRank(rank, before, after, level), k)
  {
    var next := ExtendRank(rank, before, after, level);
    RankKept(initial, before, after, rank, level, before[k].id);
    forall d | d in initial[k].dependencies ensures DependencyRanked(initial, next, initial[k].id, d) {
      assert DependencyRanked(initial, rank, initial[k].id, d);
      if d in rank {
        RankKept(initial, before, after, rank, level, d);
      }
    }
  }

  lemma NewNodeIsRanked(initial: seq<ExecutionNode>, before: seq<ExecutionNode>, after: seq<ExecutionNode>,
                        rank: map<string, nat>, level: nat, k: nat)
    requires Justified(initial, before, rank, level) && UniqueIds(before) && Evolves(before, after)
    requires forall m :: 0 <= m < |before| ==> SameNode(initial[m], before[m])
    requires k < |initial| && RunBudget(initial[k]) > 0
    requires before[k].status != Passed && after[k].status == Passed && DependenciesPassed(before, before[k])
    ensures NodeRanked(initial, ExtendRank(rank, before, after, level), k)
  {
    var next := ExtendRank(rank, before, after, level);
    assert NodeEvolves(before[k], after[k]);
    assert initial[k].id in NewlyPassed(before, after);
    forall d | d in initial[k].dependencies ensures DependencyRanked(initial, next, initial[k].id, d) {
      RankKept(initial, before, after, rank, level, d);
      var j :| 0 <= j < |before| && before[j].id == d && before[j].status == Passed;
      assert initial[j].id == d;
      if initial[j].status != Passed {
        assert NodeRanked(initial, rank, j);
      }
    }
  }

  lemma JustifyWave(initial: seq<ExecutionNode>, before: seq<ExecutionNode>, w: Wave, after: seq<ExecutionNode>,
                    rank: map<string, nat>, level: nat)
    requires Justified(initial, before, rank, level) && UniqueIds(before) && WaveEffect(before, w, after)
    requires forall m :: 0 <= m < |before| ==> SameNode(initial[m], before[m]) && initial[m].attempts <= before[m].attempts
    requires forall m :: 0 <= m < |after| ==> after[m].attempts <= initial[m].attempts + RunBudget(initial[m])
    ensures Justified(initial, after, ExtendRank(rank, before, after, level), level + 1)
  {
    EvolvesTransitive(before, w.snapshot, after);
    forall k | 0 <= k < |after| && after[k].status == Passed && initial[k].status != Passed
      ensures NodeRanked(initial, ExtendRank(rank, before, after, level), k)
    {
      if before[k].status == Passed {
        OldNodeStaysRanked(initial, before, after, rank, level, k);
      } else {
        NewNodeRan(before, w, after, k);
        NewNodeIsRanked(initial, before, after, rank, level, k);
      }
    }
    RankIsBounded(initial, before, after, rank, level);
  }

  lemma {:induction false} NewNodeRan(before: seq<ExecutionNode>, w: Wave, after: seq<ExecutionNode>, k: nat)
    requires WaveEffect(before, w, after) && k < |before| && after[k].status == Passed && before[k].status != Passed
    ensures DependenciesPassed(before, before[k]) && after[k].attempts == before[k].attempts + 1
  {
    assert Ready(before, k);
    assert PassedIn(w, k);
    assert Called(w, k);
  }

  lemma {:induction false} RankIsBounded(initial: seq<ExecutionNode>, before: seq<ExecutionNode>, after: seq<ExecutionNode>,
                                         rank: map<string, nat>, level: nat)
    requires Justified(initial, before, rank, level) && Evolves(before, after)
    ensures var next := ExtendRank(rank, before, after, level);
      forall id :: id in next ==>
        next[id] < level + 1 && exists k :: 0 <= k < |after| && after[k].id == id && after[k].status == Passed
  {
    var next := ExtendRank(rank, before, after, level);
    forall id | id in next
      ensures next[id] < level + 1 && exists k :: 0 <= k < |after| && after[k].id == id && after[k].status == Passed
    {
      if id !in NewlyPassed(before, after) {
        var k :| 0 <= k < |before| && before[k].id == id && before[k].status == Passed;
        assert NodeEvolves(before[k], after[k]);
      }
    }
  }

  // ---- Under a cooperative environment every chosen node passes ----

  lemma CooperativeAuthorizes(env: Environment, plan: seq<ExecutionNode>, n: ExecutionNode, t: nat)
    requires Cooperative(env, plan) && (exists k :: 0 <= k < |plan| && plan[k].recipe == n.recipe)
    ensures Authorize(env, n, t).allowed
  {
  }

  lemma CooperativeStart(env: Environment, initial: seq<ExecutionNode>, before: seq<ExecutionNode>, wave: seq<nat>, t: nat,
                         w: Wave, k: nat)
    requires Cooperative(env, initial) && |initial| == |before| && Sailing(before)
    requires forall m :: 0 <= m < |before| ==> SameNode(initial[m], before[m])
    requires Valid(before) && AllReady(before, wave) && StartedUpTo(env, before, wave, |wave|, t, w.snapshot, w.asks)
    requires k < |before|
    ensures if k in wave then w.snapshot[k].status == Running && w.snapshot[k].recipe == initial[k].recipe
            else w.snapshot[k] == before[k]
  {
    assert wave[..|wave|] == wave;
    if k in wave {
      var i :| 0 <= i < |wave| && wave[i] == k;
      assert w.snapshot[k] == Started(env, before[k], t + i);
      CooperativeAuthorizes(env, initial, before[k], t + i);
    }
  }

  ghost predicate AllReturnedPassed(calls: seq<Call>) {
    forall c :: 0 <= c < |calls| ==> calls[c].result.Returned? && calls[c].result.outcome.status == Passed
  }

  lemma {:induction false} CooperativeOutcome(calls: seq<Call>, order: seq<nat>, outcomes: seq<Outcome>, i: nat)
    requires AllReturnedPassed(calls) && ResolvedUpTo(calls, order, outcomes) && i < |order|
    ensures outcomes[order[i]].status == Passed
  {
    assert outcomes[order[i]] == Resolve(calls[order[i]].result, FirstLimit(calls, order[..i + 1]));
  }

  lemma {:induction false} CooperativeOutcomes(calls: seq<Call>, order: seq<nat>, outcomes: seq<Outcome>)
    requires AllReturnedPassed(calls) && Partition(order, [], |calls|) && ResolvedUpTo(calls, order, outcomes)
    ensures FirstLimit(calls, order).None?
    ensures forall j :: 0 <= j < |outcomes| ==> outcomes[j].status == Passed
  {
    FirstLimitIff(calls, order);
    forall j: nat | j < |outcomes| ensures outcomes[j].status == Passed {
      assert j in order;
      var i :| 0 <= i < |order| && order[i] == j;
      CooperativeOutcome(calls, order, outcomes, i);
    }
  }

  /** A node of a cooperative wave that was called passes, and one that was not is as before. */
  lemma CooperativeSettles(env: Environment, initial: seq<ExecutionNode>, before: seq<ExecutionNode>, wave: seq<nat>, t: nat, w: Wave,
                           active: seq<nat>, outcomes: seq<Outcome>, limit: Option<string>, completions: seq<Completion>,
                           after: seq<ExecutionNode>, k: nat)
    requires Cooperative(env, initial) && |initial| == |before| && Sailing(before)
    requires forall m :: 0 <= m < |before| ==> SameNode(initial[m], before[m])
    requires Valid(before) && AllReady(before, wave) && StartedUpTo(env, before, wave, |wave|, t, w.snapshot, w.asks)
    requires active == RunningAmong(w.snapshot, wave) && |active| == |outcomes| && k < |before|
    requires forall j :: 0 <= j < |outcomes| ==> outcomes[j].status == Passed
    requires SettledUpTo(env, w.snapshot, active, outcomes, limit, |active|, completions, after)
    ensures after[k].status == Queued || after[k].status == Passed
  {
    assert active[..|active|] == active;
    CooperativeStart(env, initial, before, wave, t, w, k);
    if k in active {
      var j :| 0 <= j < |active| && active[j] == k;
      CooperativeAuthorizes(env, initial, w.snapshot[k], completions[j].at);
      SettledFacts(env, w.snapshot[k], outcomes[j], limit, completions[j].at);
    } else {
      assert k !in wave;
    }
  }

  lemma CooperativeCalls(env: Environment, initial: seq<ExecutionNode>, snapshot: seq<ExecutionNode>, active: seq<nat>,
                         previous: map<string, PreviousFailure>, u: nat)
    requires Cooperative(env, initial) && forall i :: 0 <= i < |active| ==> active[i] < |snapshot|
    ensures AllReturnedPassed(CallsOf(env, snapshot, active, previous, u))
  {
  }

  lemma CooperativeWave(env: Environment, initial: seq<ExecutionNode>, before: seq<ExecutionNode>, wave: seq<nat>, t: nat, w: Wave,
                        active: seq<nat>, previous: map<string, PreviousFailure>, u: nat,
                        order: seq<nat>, outcomes: seq<Outcome>, completions: seq<Completion>,
                        after: seq<ExecutionNode>)
    requires Cooperative(env, initial) && |initial| == |before| && Sailing(before)
    requires forall m :: 0 <= m < |before| ==> SameNode(initial[m], before[m])
    requires Launched(env, before, wave, t, w, active, previous, u)
    requires |active| == |outcomes|
    requires Partition(order, [], |w.calls|) && ResolvedUpTo(w.calls, order, outcomes)
    requires SettledUpTo(env, w.snapshot, active, outcomes, FirstLimit(w.calls, order), |active|, completions, after)
    ensures Sailing(after) && FirstLimit(w.calls, order).None?
  {
    CooperativeCalls(env, initial, w.snapshot, active, previous, u);
    CooperativeOutcomes(w.calls, order, outcomes);
    forall k | 0 <= k < |after| ensures after[k].status == Queued || after[k].status == Passed {
      CooperativeSettles(env, initial, before, wave, t, w, active, outcomes, FirstLimit(w.calls, order), completions, after, k);
    }
  }

  /** The schema admits a queued node with three attempts; it never becomes runnable, so a plan
      holding one is blocked as stalled although it has no dependency at all. */
  lemma ExhaustedQueuedNodeStalls()
    ensures var n := ExecutionNode("a", Queued, [], {}, false, 3, 0, None, None);
      Valid([n]) && !Ready([n], 0) && !HasImpossibleDependency([n], n) && !Completable([n])
  {
    var n := ExecutionNode("a", Queued, [], {}, false, 3, 0, None, None);
    forall rank ensures !Ranked([n], rank) {
      assert !NodeRanked([n], rank, 0);
    }
  }
}
