/** Recovery and blocking passes of the plan coordinator, and the point updates they are made of
    (execution-node-coordinator.ts:117-306). */
module PlanBlocking {
  import opened Options
  import opened ExecutionNodes

  const MAX_FAILURE_DETAIL: nat := 4000

  function Clip(s: string): (r: string)
    ensures |r| <= MAX_FAILURE_DETAIL
  {
    if |s| > MAX_FAILURE_DETAIL then s[..MAX_FAILURE_DETAIL] else s
  }

  function WithFailure(n: ExecutionNode, status: Status, detail: string): ExecutionNode {
    n.(lastFailure := Some(LastFailure(status, if n.attempts < 1 then 1 else n.attempts, n.validationAttempts, Clip(detail))))
  }

  function SetLastFailure(nodes: seq<ExecutionNode>, id: string, status: Status, detail: string): seq<ExecutionNode> {
    seq(|nodes|, i requires 0 <= i < |nodes| => if nodes[i].id == id then WithFailure(nodes[i], status, detail) else nodes[i])
  }

  function ClearLastFailure(nodes: seq<ExecutionNode>, id: string): seq<ExecutionNode> {
    seq(|nodes|, i requires 0 <= i < |nodes| => if nodes[i].id == id then nodes[i].(lastFailure := None) else nodes[i])
  }

  /** Callable only where the transition is legal: the coordinator never makes it throw. */
  function UpdateNode(nodes: seq<ExecutionNode>, id: string, next: Status): seq<ExecutionNode>
    requires Transition(nodes, id, next).Some?
  {
    Transition(nodes, id, next).value
  }

  function BlockedNode(n: ExecutionNode): ExecutionNode { if Terminal(n) then n else n.(status := Blocked) }

  /** Defined for repeated ids too: the first node with the id decides, and lends its attempts to
      every node with the id. */
  function TransitionToBlocked(nodes: seq<ExecutionNode>, id: string): (r: seq<ExecutionNode>)
    requires AllNodesOk(nodes)
    ensures AllNodesOk(r) && |r| == |nodes|
  {
    var k := Find(nodes, id);
    if k.None? || Terminal(nodes[k.value]) then nodes
    else
      assert NodeOk(nodes[k.value]);
      UpdateNode(nodes, id, Blocked)
  }

  lemma SetLastFailureAt(nodes: seq<ExecutionNode>, k: nat, status: Status, detail: string)
    requires UniqueIds(nodes) && k < |nodes|
    ensures SetLastFailure(nodes, nodes[k].id, status, detail) == nodes[k := WithFailure(nodes[k], status, detail)]
  {
  }

  lemma ClearLastFailureAt(nodes: seq<ExecutionNode>, k: nat)
    requires UniqueIds(nodes) && k < |nodes|
    ensures ClearLastFailure(nodes, nodes[k].id) == nodes[k := nodes[k].(lastFailure := None)]
  {
  }

  lemma TransitionToBlockedAt(nodes: seq<ExecutionNode>, k: nat)
    requires Valid(nodes) && k < |nodes|
    ensures TransitionToBlocked(nodes, nodes[k].id) == nodes[k := BlockedNode(nodes[k])]
  {
    FindAt(nodes, k);
    if !Terminal(nodes[k]) {
      TransitionAt(nodes, k, Blocked);
    }
  }

  /** A node keeps its identity, its scope and its place in the graph. */
  ghost predicate SameNode(a: ExecutionNode, b: ExecutionNode) {
    a.id == b.id && a.dependencies == b.dependencies && a.files == b.files && a.recipe == b.recipe
    && a.maxAttempts == b.maxAttempts
  }

  lemma PointUpdateValid(nodes: seq<ExecutionNode>, k: nat, n: ExecutionNode)
    requires Valid(nodes) && k < |nodes| && SameNode(nodes[k], n) && NodeOk(n)
    ensures Valid(nodes[k := n])
  {
  }

  // ---- Recovery ----

  /** What a restart makes of one checkpointed node. */
  function Recovered(n: ExecutionNode): ExecutionNode {
    if n.status == Running || n.status == Failed then
      n.(status := if n.attempts < AttemptLimit(n) then Queued else Blocked)
    else n
  }

  method RecoverInterruptedNodes(initial: seq<ExecutionNode>) returns (nodes: seq<ExecutionNode>)
    requires Valid(initial)
    ensures Valid(nodes) && |nodes| == |initial|
    ensures forall k :: 0 <= k < |nodes| ==> nodes[k] == Recovered(initial[k])
  {
    nodes := initial;
    for i := 0 to |initial|
      invariant Valid(nodes) && |nodes| == |initial|
      invariant forall k :: 0 <= k < i ==> nodes[k] == Recovered(initial[k])
      invariant forall k :: i <= k < |nodes| ==> nodes[k] == initial[k]
    {
      var node := initial[i];
      if node.status == Running {
        TransitionAt(nodes, i, Failed);
        PointUpdateValid(nodes, i, node.(status := Failed));
        nodes := UpdateNode(nodes, node.id, Failed);
        nodes := RequeueOrBlock(nodes, i);
      } else if node.status == Failed {
        nodes := RequeueOrBlock(nodes, i);
      }
    }
  }

  /** The common tail of both recovery branches. */
  method RequeueOrBlock(nodes: seq<ExecutionNode>, k: nat) returns (next: seq<ExecutionNode>)
    requires Valid(nodes) && k < |nodes| && nodes[k].status == Failed
    ensures next == nodes[k := Recovered(nodes[k])] && Valid(next)
  {
    PointUpdateValid(nodes, k, Recovered(nodes[k]));
    if nodes[k].attempts < AttemptLimit(nodes[k]) {
      TransitionAt(nodes, k, Queued);
      next := UpdateNode(nodes, nodes[k].id, Queued);
    } else {
      TransitionToBlockedAt(nodes, k);
      next := TransitionToBlocked(nodes, nodes[k].id);
    }
  }

  // ---- Transitive blocking ----

  /** The dependency can no longer pass: it is unknown, or the first node with its id is blocked. */
  predicate Impossible(nodes: seq<ExecutionNode>, d: string) {
    var k := Find(nodes, d);
    k.None? || nodes[k.value].status == Blocked
  }

  predicate HasImpossibleDependency(nodes: seq<ExecutionNode>, n: ExecutionNode) {
    exists d :: d in n.dependencies && Impossible(nodes, d)
  }

  /** Blocking the id has an effect: the first node that carries it is not terminal. */
  predicate Open(nodes: seq<ExecutionNode>, id: string) {
    var k := Find(nodes, id);
    k.Some? && !Terminal(nodes[k.value])
  }

  /** A queued node from which a chain of at most n + 1 dependencies, all queued and open but the
      last, leads to an unknown or blocked one. */
  ghost predicate Doomed(nodes: seq<ExecutionNode>, k: nat, n: nat)
    decreases n
  {
    && k < |nodes| && nodes[k].status == Queued
    && (HasImpossibleDependency(nodes, nodes[k])
        || (n > 0 && exists j: nat :: DoomedDependency(nodes, nodes[k], j) && Doomed(nodes, j, n - 1)))
  }

  ghost predicate DoomedDependency(nodes: seq<ExecutionNode>, n: ExecutionNode, j: nat) {
    j < |nodes| && nodes[j].id in n.dependencies && Open(nodes, nodes[j].id)
  }

  ghost predicate CannotPass(nodes: seq<ExecutionNode>, k: nat) { exists n: nat :: Doomed(nodes, k, n) }

  ghost predicate IdCannotPass(nodes: seq<ExecutionNode>, id: string) {
    exists k: nat :: CannotPass(nodes, k) && nodes[k].id == id
  }

  /** Some queued node that can no longer pass shares its id with an earlier passed or blocked node. */
  ghost predicate Trapped(nodes: seq<ExecutionNode>) {
    exists k: nat :: CannotPass(nodes, k) && !Open(nodes, nodes[k].id)
  }

  ghost predicate Quiet(nodes: seq<ExecutionNode>) {
    forall k :: 0 <= k < |nodes| && nodes[k].status == Queued ==> !HasImpossibleDependency(nodes, nodes[k])
  }

  // -- A plan in which some ids have been blocked --

  function FirstAttempts(nodes: seq<ExecutionNode>, id: string): nat {
    var k := Find(nodes, id);
    if k.Some? then nodes[k.value].attempts else 0
  }

  function BlockedAs(nodes: seq<ExecutionNode>, n: ExecutionNode): ExecutionNode {
    n.(status := Blocked, attempts := FirstAttempts(nodes, n.id))
  }

  ghost function BlockIds(nodes: seq<ExecutionNode>, ids: set<string>): (r: seq<ExecutionNode>)
    ensures |r| == |nodes| && forall k :: 0 <= k < |r| ==>
      r[k] == if nodes[k].id in ids then BlockedAs(nodes, nodes[k]) else nodes[k]
  {
    seq(|nodes|, k requires 0 <= k < |nodes| => if nodes[k].id in ids then BlockedAs(nodes, nodes[k]) else nodes[k])
  }

  /** Only open ids of nodes that could not pass have been blocked. */
  ghost predicate Sound(nodes: seq<ExecutionNode>, ids: set<string>) {
    forall id :: id in ids ==> Open(nodes, id) && IdCannotPass(nodes, id)
  }

  lemma {:induction false} FindSameIds(a: seq<ExecutionNode>, b: seq<ExecutionNode>, id: string)
    requires |a| == |b| && forall k :: 0 <= k < |a| ==> a[k].id == b[k].id
    ensures Find(a, id) == Find(b, id)
  {
    if a != [] && a[0].id != id {
      forall k | 0 <= k < |a| - 1 ensures a[1..][k].id == b[1..][k].id {
        assert a[1..][k] == a[k + 1] && b[1..][k] == b[k + 1];
      }
      FindSameIds(a[1..], b[1..], id);
    }
  }

  lemma BlockOneMore(nodes: seq<ExecutionNode>, ids: set<string>, id: string)
    requires AllNodesOk(nodes) && AllNodesOk(BlockIds(nodes, ids)) && forall i :: i in ids ==> Open(nodes, i)
    ensures TransitionToBlocked(BlockIds(nodes, ids), id) ==
            BlockIds(nodes, if Open(nodes, id) then ids + {id} else ids)
  {
    var now := BlockIds(nodes, ids);
    FindSameIds(now, nodes, id);
    var r := TransitionToBlocked(now, id);
    if Open(nodes, id) {
      assert r == BlockIds(nodes, ids + {id});
    } else {
      assert r == now;
    }
  }

  lemma ImpossibleOnceBlocked(nodes: seq<ExecutionNode>, ids: set<string>, d: string)
    requires forall i :: i in ids ==> Open(nodes, i)
    ensures Impossible(BlockIds(nodes, ids), d) <==> Impossible(nodes, d) || d in ids
  {
    FindSameIds(BlockIds(nodes, ids), nodes, d);
  }

  lemma NewlyDoomed(nodes: seq<ExecutionNode>, ids: set<string>, k: nat)
    requires Sound(nodes, ids) && k < |nodes| && nodes[k].status == Queued
    requires HasImpossibleDependency(BlockIds(nodes, ids), nodes[k])
    ensures CannotPass(nodes, k)
  {
    var d :| d in nodes[k].dependencies && Impossible(BlockIds(nodes, ids), d);
    ImpossibleOnceBlocked(nodes, ids, d);
    if Impossible(nodes, d) {
      assert Doomed(nodes, k, 0);
    } else {
      assert IdCannotPass(nodes, d);
      var j: nat :| CannotPass(nodes, j) && nodes[j].id == d;
      var n: nat :| Doomed(nodes, j, n);
      assert DoomedDependency(nodes, nodes[k], j);
      assert Doomed(nodes, k, n + 1);
    }
  }

  lemma {:induction false} DoomedIsBlocked(nodes: seq<ExecutionNode>, ids: set<string>, k: nat, n: nat)
    requires Sound(nodes, ids) && Quiet(BlockIds(nodes, ids)) && Doomed(nodes, k, n)
    ensures nodes[k].id in ids
    decreases n
  {
    var now := BlockIds(nodes, ids);
    if HasImpossibleDependency(nodes, nodes[k]) {
      var d :| d in nodes[k].dependencies && Impossible(nodes, d);
      ImpossibleOnceBlocked(nodes, ids, d);
    } else {
      var j: nat :| DoomedDependency(nodes, nodes[k], j) && Doomed(nodes, j, n - 1);
      DoomedIsBlocked(nodes, ids, j, n - 1);
      ImpossibleOnceBlocked(nodes, ids, nodes[j].id);
    }
    assert nodes[k].id !in ids ==> now[k] == nodes[k] && HasImpossibleDependency(now, now[k]);
  }

  /** Where a pass changes nothing, the blocked ids are exactly those that cannot pass. */
  lemma FixpointIsExact(nodes: seq<ExecutionNode>, ids: set<string>)
    requires Sound(nodes, ids) && Quiet(BlockIds(nodes, ids))
    ensures !Trapped(nodes)
    ensures forall id :: id in ids <==> Open(nodes, id) && IdCannotPass(nodes, id)
  {
    forall k: nat | CannotPass(nodes, k) ensures nodes[k].id in ids {
      var n: nat :| Doomed(nodes, k, n);
      DoomedIsBlocked(nodes, ids, k, n);
    }
  }

  // -- The passes of the loop --

  /** The body of the pass for one node of the snapshot. */
  function PassStep(nodes: seq<ExecutionNode>, node: ExecutionNode, changed: bool): (r: (seq<ExecutionNode>, bool))
    requires AllNodesOk(nodes)
    ensures |r.0| == |nodes| && AllNodesOk(r.0)
  {
    if node.status == Queued && HasImpossibleDependency(nodes, node) then (TransitionToBlocked(nodes, node.id), true)
    else (nodes, changed)
  }

  /** The plan, and whether a change was reported, after the first `m` nodes of one pass. */
  function PassUpTo(snapshot: seq<ExecutionNode>, m: nat): (r: (seq<ExecutionNode>, bool))
    requires m <= |snapshot| && AllNodesOk(snapshot)
    ensures |r.0| == |snapshot| && AllNodesOk(r.0)
  {
    if m == 0 then (snapshot, false)
    else
      var (nodes, changed) := PassUpTo(snapshot, m - 1);
      PassStep(nodes, snapshot[m - 1], changed)
  }

  function Pass(nodes: seq<ExecutionNode>): (r: (seq<ExecutionNode>, bool))
    requires AllNodesOk(nodes)
    ensures |r.0| == |nodes| && AllNodesOk(r.0)
  {
    PassUpTo(nodes, |nodes|)
  }

  function Passes(nodes: seq<ExecutionNode>, n: nat): (r: seq<ExecutionNode>)
    requires AllNodesOk(nodes)
    ensures |r| == |nodes| && AllNodesOk(r)
  {
    if n == 0 then nodes else Pass(Passes(nodes, n - 1)).0
  }

  /** Some pass of the loop reports no change. */
  ghost predicate LoopEnds(nodes: seq<ExecutionNode>)
    requires AllNodesOk(nodes)
  {
    exists n: nat :: !Pass(Passes(nodes, n)).1
  }

  /** `more` is what blocking has grown to from `ids` after the first `m` nodes of a pass. */
  ghost predicate PassedOver(nodes: seq<ExecutionNode>, ids: set<string>, m: nat, more: set<string>, changed: bool) {
    && m <= |nodes| && ids <= more && Sound(nodes, more)
    && (!changed ==> more == ids)
    && (!changed ==> forall k :: 0 <= k < m && nodes[k].id !in ids && nodes[k].status == Queued ==>
          !HasImpossibleDependency(BlockIds(nodes, ids), nodes[k]))
    && (changed && !Trapped(nodes) ==> more != ids)
  }

  lemma PassOverOne(nodes: seq<ExecutionNode>, ids: set<string>, m: nat, more: set<string>, changed: bool)
    requires m < |nodes| && PassedOver(nodes, ids, m, more, changed)
    ensures
      var n := nodes[m];
      var hit := n.id !in ids && n.status == Queued && HasImpossibleDependency(BlockIds(nodes, more), n);
      PassedOver(nodes, ids, m + 1, if hit && Open(nodes, n.id) then more + {n.id} else more, hit || changed)
  {
    var n := nodes[m];
    if n.id !in ids && n.status == Queued && HasImpossibleDependency(BlockIds(nodes, more), n) {
      NewlyDoomed(nodes, more, m);
      assert IdCannotPass(nodes, n.id);
    }
  }

  lemma {:induction false} StepIs(nodes: seq<ExecutionNode>, ids: set<string>, m: nat, more: set<string>, changed: bool)
    returns (next: set<string>)
    requires AllNodesOk(nodes) && AllNodesOk(BlockIds(nodes, more)) && m < |nodes|
    requires PassedOver(nodes, ids, m, more, changed)
    ensures var r := PassStep(BlockIds(nodes, more), BlockIds(nodes, ids)[m], changed);
      r.0 == BlockIds(nodes, next) && PassedOver(nodes, ids, m + 1, next, r.1)
  {
    var n, now := nodes[m], BlockIds(nodes, ids)[m];
    assert now.status == Queued <==> n.id !in ids && n.status == Queued;
    assert now.id == n.id && now.dependencies == n.dependencies;
    PassOverOne(nodes, ids, m, more, changed);
    BlockOneMore(nodes, more, n.id);
    var hit := n.id !in ids && n.status == Queued && HasImpossibleDependency(BlockIds(nodes, more), n);
    next := if hit && Open(nodes, n.id) then more + {n.id} else more;
  }

  lemma {:induction false} PassIs(nodes: seq<ExecutionNode>, ids: set<string>, m: nat) returns (more: set<string>)
    requires AllNodesOk(nodes) && AllNodesOk(BlockIds(nodes, ids)) && Sound(nodes, ids) && m <= |nodes|
    ensures var r := PassUpTo(BlockIds(nodes, ids), m);
      r.0 == BlockIds(nodes, more) && PassedOver(nodes, ids, m, more, r.1)
    decreases m
  {
    if m == 0 {
      more := ids;
    } else {
      more := PassIs(nodes, ids, m - 1);
      more := StepIs(nodes, ids, m - 1, more, PassUpTo(BlockIds(nodes, ids), m - 1).1);
    }
  }

  /** One pass from a plan with some ids blocked: it reports no change exactly where it finds
      nothing to block, and unless a node is trapped a reported change is a real one. */
  lemma PassFrom(nodes: seq<ExecutionNode>, ids: set<string>) returns (more: set<string>)
    requires AllNodesOk(nodes) && AllNodesOk(BlockIds(nodes, ids)) && Sound(nodes, ids)
    ensures var r := Pass(BlockIds(nodes, ids));
      && r.0 == BlockIds(nodes, more) && Sound(nodes, more) && ids <= more
      && (!r.1 ==> more == ids && Quiet(BlockIds(nodes, ids)))
      && (r.1 && !Trapped(nodes) ==> ids < more)
  {
    more := PassIs(nodes, ids, |nodes|);
    var now := BlockIds(nodes, ids);
    forall k | 0 <= k < |now| && now[k].status == Queued && !Pass(now).1 ensures !HasImpossibleDependency(now, now[k]) {
      assert nodes[k].id !in ids;
    }
  }

  lemma {:induction false} NextPass(nodes: seq<ExecutionNode>, n: nat, ids: set<string>) returns (more: set<string>)
    requires AllNodesOk(nodes) && Sound(nodes, ids) && Passes(nodes, n) == BlockIds(nodes, ids)
    ensures Passes(nodes, n + 1) == BlockIds(nodes, more) && Sound(nodes, more)
    ensures Pass(Passes(nodes, n)).1 && !Trapped(nodes) ==> ids < more
    ensures !Pass(Passes(nodes, n)).1 ==> Quiet(BlockIds(nodes, ids))
  {
    more := PassFrom(nodes, ids);
  }

  lemma {:induction false} NothingBlockedYet(nodes: seq<ExecutionNode>)
    requires AllNodesOk(nodes)
    ensures Passes(nodes, 0) == BlockIds(nodes, {}) && Sound(nodes, {})
  {
    assert nodes == BlockIds(nodes, {});
  }

  lemma {:induction false} PassesAre(nodes: seq<ExecutionNode>, n: nat) returns (ids: set<string>)
    requires AllNodesOk(nodes)
    ensures Passes(nodes, n) == BlockIds(nodes, ids) && Sound(nodes, ids)
    decreases n
  {
    if n == 0 {
      NothingBlockedYet(nodes);
      ids := {};
    } else {
      ids := PassesAre(nodes, n - 1);
      ids := NextPass(nodes, n - 1, ids);
    }
  }

  ghost function Ids(nodes: seq<ExecutionNode>): set<string> { set k | 0 <= k < |nodes| :: nodes[k].id }

  lemma SoundIdsAreIds(nodes: seq<ExecutionNode>, ids: set<string>)
    requires Sound(nodes, ids)
    ensures ids <= Ids(nodes)
  {
    forall id | id in ids ensures id in Ids(nodes) {
      var k: nat :| CannotPass(nodes, k) && nodes[k].id == id;
      var n: nat :| Doomed(nodes, k, n);
      assert nodes[k].id in Ids(nodes);
    }
  }

  lemma {:induction false} EndsFrom(nodes: seq<ExecutionNode>, n: nat, ids: set<string>)
    requires AllNodesOk(nodes) && !Trapped(nodes) && Sound(nodes, ids) && Passes(nodes, n) == BlockIds(nodes, ids)
    ensures LoopEnds(nodes)
    decreases Ids(nodes) - ids
  {
    var more := NextPass(nodes, n, ids);
    if Pass(Passes(nodes, n)).1 {
      SoundIdsAreIds(nodes, more);
      EndsFrom(nodes, n + 1, more);
    }
  }

  /** The loop ends exactly when no queued node that can no longer pass stands behind a passed or
      blocked node with its own id. */
  lemma LoopEndsIff(nodes: seq<ExecutionNode>)
    requires AllNodesOk(nodes)
    ensures LoopEnds(nodes) <==> !Trapped(nodes)
  {
    if LoopEnds(nodes) {
      var n: nat :| !Pass(Passes(nodes, n)).1;
      var ids := PassesAre(nodes, n);
      var more := NextPass(nodes, n, ids);
      FixpointIsExact(nodes, ids);
    } else if !Trapped(nodes) {
      NothingBlockedYet(nodes);
      EndsFrom(nodes, 0, {});
    }
  }

  lemma UniqueIsNotTrapped(nodes: seq<ExecutionNode>)
    requires UniqueIds(nodes)
    ensures !Trapped(nodes)
  {
    forall k: nat | CannotPass(nodes, k) ensures Open(nodes, nodes[k].id) {
      var n: nat :| Doomed(nodes, k, n);
      FindAt(nodes, k);
    }
  }

  /** Both plans pass the node schema. In the first, the queued copy is blocked for ever: one pass
      returns the plan it was given and reports a change. In the second, the passed copy is blocked. */
  lemma RepeatedIds()
    ensures
      var missing := ["missing"];
      var passed := ExecutionNode("x", Passed, [], {}, false, 1, 0, None, None);
      var queued := ExecutionNode("x", Queued, missing, {}, false, 0, 0, None, None);
      && AllNodesOk([passed, queued]) && AllNodesOk([queued, passed])
      && Pass([passed, queued]) == ([passed, queued], true)
      && !LoopEnds([passed, queued])
      && LoopEnds([queued, passed]) && Pass([queued, passed]).0[1].status == Blocked
  {
    var missing := ["missing"];
    var passed := ExecutionNode("x", Passed, [], {}, false, 1, 0, None, None);
    var queued := ExecutionNode("x", Queued, missing, {}, false, 0, 0, None, None);
    RepeatedBehind(passed, queued, "missing");
    RepeatedBefore(passed, queued, "missing");
  }

  lemma RepeatedBehind(passed: ExecutionNode, queued: ExecutionNode, d: string)
    requires NodeOk(passed) && NodeOk(queued) && passed.id == queued.id != d && d in queued.dependencies
    requires passed.status == Passed && queued.status == Queued
    ensures AllNodesOk([passed, queued])
    ensures Pass([passed, queued]) == ([passed, queued], true) && !LoopEnds([passed, queued])
  {
    var plan := [passed, queued];
    assert Find(plan, d).None?;
    assert Find(plan, queued.id) == Some(0);
    assert HasImpossibleDependency(plan, queued);
    assert PassUpTo(plan, 1) == (plan, false);
    assert PassUpTo(plan, 2) == (plan, true);
    assert Doomed(plan, 1, 0);
    assert CannotPass(plan, 1) && !Open(plan, plan[1].id);
    LoopEndsIff(plan);
  }

  lemma RepeatedBefore(passed: ExecutionNode, queued: ExecutionNode, d: string)
    requires NodeOk(passed) && NodeOk(queued) && passed.id == queued.id != d && d in queued.dependencies
    requires passed.status == Passed && queued.status == Queued
    ensures AllNodesOk([queued, passed])
    ensures LoopEnds([queued, passed]) && Pass([queued, passed]).0[1].status == Blocked
  {
    var plan := [queued, passed];
    assert Find(plan, d).None?;
    assert Find(plan, queued.id) == Some(0);
    assert HasImpossibleDependency(plan, queued);
    assert PassUpTo(plan, 0) == (plan, false);
    assert PassUpTo(plan, 1) == (TransitionToBlocked(plan, queued.id), true);
    forall k: nat | CannotPass(plan, k) ensures Open(plan, plan[k].id) {
      var n: nat :| Doomed(plan, k, n);
      assert k == 0;
    }
    LoopEndsIff(plan);
  }

  /** What the loop makes of a plan: every node of an open id that cannot pass is blocked and takes
      the attempts of the first node with its id; every other node is as before. */
  ghost predicate BlockedById(initial: seq<ExecutionNode>, nodes: seq<ExecutionNode>) {
    && |nodes| == |initial|
    && forall k :: 0 <= k < |nodes| ==>
         nodes[k] == if Open(initial, initial[k].id) && IdCannotPass(initial, initial[k].id)
                     then BlockedAs(initial, initial[k]) else initial[k]
  }

  /** A node that had passed is blocked exactly when it shares its id with a queued node that can no
      longer pass and the first node with the id had not ended. */
  lemma PassedCopyLostIff(initial: seq<ExecutionNode>, nodes: seq<ExecutionNode>, k: nat)
    requires BlockedById(initial, nodes) && k < |initial| && initial[k].status == Passed
    ensures nodes[k].status == Blocked <==> Open(initial, initial[k].id) && IdCannotPass(initial, initial[k].id)
    ensures UniqueIds(initial) ==> nodes[k] == initial[k]
  {
    if UniqueIds(initial) {
      FindAt(initial, k);
    }
  }

  /** The same with unique ids: exactly the queued nodes that can no longer pass are blocked. */
  ghost predicate BlockedExactly(initial: seq<ExecutionNode>, nodes: seq<ExecutionNode>) {
    && |nodes| == |initial|
    && forall k :: 0 <= k < |nodes| ==>
         nodes[k] == if CannotPass(initial, k) then initial[k].(status := Blocked) else initial[k]
  }

  lemma UniqueBlocking(initial: seq<ExecutionNode>, nodes: seq<ExecutionNode>)
    requires Valid(initial) && BlockedById(initial, nodes)
    ensures Valid(nodes) && BlockedExactly(initial, nodes)
  {
    forall k | 0 <= k < |nodes|
      ensures nodes[k] == if CannotPass(initial, k) then initial[k].(status := Blocked) else initial[k]
    {
      FindAt(initial, k);
      if IdCannotPass(initial, initial[k].id) {
        var j: nat :| CannotPass(initial, j) && initial[j].id == initial[k].id;
        var n: nat :| Doomed(initial, j, n);
        assert j == k;
      }
      if CannotPass(initial, k) {
        var n: nat :| Doomed(initial, k, n);
        assert IdCannotPass(initial, initial[k].id);
      }
    }
  }

  method BlockingPass(nodes: seq<ExecutionNode>) returns (next: seq<ExecutionNode>, changed: bool)
    requires AllNodesOk(nodes)
    ensures (next, changed) == Pass(nodes)
  {
    next, changed := nodes, false;
    for i := 0 to |nodes|
      invariant (next, changed) == PassUpTo(nodes, i)
    {
      if nodes[i].status == Queued && HasImpossibleDependency(next, nodes[i]) {
        next := TransitionToBlocked(next, nodes[i].id);
        changed := true;
      }
    }
  }

  /** The loop, on every plan on which it ends (`LoopEndsIff`). */
  method BlockImpossibleNodes(initial: seq<ExecutionNode>) returns (nodes: seq<ExecutionNode>)
    requires AllNodesOk(initial) && !Trapped(initial)
    ensures AllNodesOk(nodes) && BlockedById(initial, nodes) && Quiet(nodes)
    ensures forall k :: 0 <= k < |nodes| && initial[k].status == Passed ==>
      (nodes[k].status == Blocked <==> Open(initial, initial[k].id) && IdCannotPass(initial, initial[k].id))
    ensures Valid(initial) ==> Valid(nodes) && BlockedExactly(initial, nodes)
  {
    nodes := initial;
    var changed := true;
    ghost var ids: set<string> := {};
    while changed
      invariant AllNodesOk(nodes) && nodes == BlockIds(initial, ids) && Sound(initial, ids)
      invariant !changed ==> Quiet(nodes)
      decreases Ids(initial) - ids, changed
    {
      ghost var more := PassFrom(initial, ids);
      SoundIdsAreIds(initial, more);
      nodes, changed := BlockingPass(nodes);
      ids := more;
    }
    FixpointIsExact(initial, ids);
    forall k: nat | k < |nodes| && initial[k].status == Passed
      ensures nodes[k].status == Blocked <==> Open(initial, initial[k].id) && IdCannotPass(initial, initial[k].id)
    {
      PassedCopyLostIff(initial, nodes, k);
    }
    if Valid(initial) {
      UniqueBlocking(initial, nodes);
    }
  }

  /** Every node still queued is blocked. */
  method BlockStalledNodes(initial: seq<ExecutionNode>) returns (nodes: seq<ExecutionNode>)
    requires Valid(initial)
    ensures Valid(nodes) && |nodes| == |initial|
    ensures forall k :: 0 <= k < |nodes| ==>
      nodes[k] == if initial[k].status == Queued then initial[k].(status := Blocked) else initial[k]
  {
    nodes := initial;
    for i := 0 to |initial|
      invariant Valid(nodes) && |nodes| == |initial|
      invariant forall k :: 0 <= k < i ==>
        nodes[k] == if initial[k].status == Queued then initial[k].(status := Blocked) else initial[k]
      invariant forall k :: i <= k < |nodes| ==> nodes[k] == initial[k]
    {
      if initial[i].status == Queued {
        TransitionToBlockedAt(nodes, i);
        PointUpdateValid(nodes, i, BlockedNode(nodes[i]));
        nodes := TransitionToBlocked(nodes, initial[i].id);
      }
    }
  }

  /** After a rate limit every node still queued is blocked with the provider's reason. */
  method BlockRateLimitedNodes(initial: seq<ExecutionNode>, detail: string) returns (nodes: seq<ExecutionNode>)
    requires Valid(initial)
    ensures Valid(nodes) && |nodes| == |initial|
    ensures forall k :: 0 <= k < |nodes| ==>
      nodes[k] == if initial[k].status == Queued then WithFailure(initial[k].(status := Blocked), Blocked, detail) else initial[k]
  {
    nodes := initial;
    for i := 0 to |initial|
      invariant Valid(nodes) && |nodes| == |initial|
      invariant forall k :: 0 <= k < i ==>
        nodes[k] == if initial[k].status == Queued then WithFailure(initial[k].(status := Blocked), Blocked, detail) else initial[k]
      invariant forall k :: i <= k < |nodes| ==> nodes[k] == initial[k]
    {
      if initial[i].status == Queued {
        TransitionToBlockedAt(nodes, i);
        PointUpdateValid(nodes, i, BlockedNode(nodes[i]));
        nodes := TransitionToBlocked(nodes, initial[i].id);
        SetLastFailureAt(nodes, i, Blocked, detail);
        PointUpdateValid(nodes, i, WithFailure(nodes[i], Blocked, detail));
        nodes := SetLastFailure(nodes, initial[i].id, Blocked, detail);
      }
    }
  }
}
