/** The durable execution node, its one legal transition table, and the choice of the
    nodes that may start in the same scheduling tick (task-session-state.ts). */
module ExecutionNodes {
  import opened Options

  datatype Status = Queued | Running | Passed | Failed | Blocked

  datatype LastFailure = LastFailure(status: Status, attempt: nat, validationAttempts: nat, detail: string)

  /** `files` is the normalized set of `allowedFiles`; `recipe` says that the node carries a
      capability id or an execution context. */
  datatype ExecutionNode = ExecutionNode(
    id: string,
    status: Status,
    dependencies: seq<string>,
    files: set<string>,
    recipe: bool,
    attempts: nat,
    validationAttempts: nat,
    maxAttempts: Option<nat>,
    lastFailure: Option<LastFailure>)

  const MAX_REPAIR_ATTEMPTS: nat := 3

  function AttemptLimit(n: ExecutionNode): nat {
    if n.maxAttempts.Some? then n.maxAttempts.value else MAX_REPAIR_ATTEMPTS
  }

  predicate Terminal(n: ExecutionNode) { n.status == Passed || n.status == Blocked }

  /** The ranges of the node schema. */
  predicate NodeOk(n: ExecutionNode) {
    && n.attempts <= 3 && n.validationAttempts <= 3
    && (n.maxAttempts.Some? ==> 1 <= n.maxAttempts.value <= 3)
  }

  ghost predicate UniqueIds(nodes: seq<ExecutionNode>) {
    forall i, j :: 0 <= i < j < |nodes| ==> nodes[i].id != nodes[j].id
  }

  ghost predicate AllNodesOk(nodes: seq<ExecutionNode>) { forall k :: 0 <= k < |nodes| ==> NodeOk(nodes[k]) }

  ghost predicate Valid(nodes: seq<ExecutionNode>) { UniqueIds(nodes) && AllNodesOk(nodes) }

  /** Position of the first node with this id. */
  function Find(nodes: seq<ExecutionNode>, id: string): (r: Option<nat>)
    ensures r.Some? ==> r.value < |nodes| && nodes[r.value].id == id
    ensures r.None? ==> forall k :: 0 <= k < |nodes| ==> nodes[k].id != id
  {
    if nodes == [] then None
    else if nodes[0].id == id then Some(0)
    else
      var r := Find(nodes[1..], id);
      assert forall k :: 0 < k < |nodes| ==> nodes[k] == nodes[1..][k - 1];
      if r.Some? then Some(r.value + 1) else None
  }

  predicate LegalTransition(from: Status, to: Status) {
    match from
    case Queued => to == Running || to == Blocked
    case Running => to == Passed || to == Failed || to == Blocked
    case Failed => to == Queued || to == Blocked
    case Passed => false
    case Blocked => false
  }

  /** None stands for the exception of an unknown id, an illegal transition or a spent budget. */
  function Transition(nodes: seq<ExecutionNode>, id: string, next: Status): Option<seq<ExecutionNode>> {
    var k := Find(nodes, id);
    if k.None? then None
    else
      var node := nodes[k.value];
      if !LegalTransition(node.status, next) then None
      else
        var attempts := if next == Running then node.attempts + 1 else node.attempts;
        if attempts > 3 then None
        else Some(seq(|nodes|, i requires 0 <= i < |nodes| =>
          if nodes[i].id == id then nodes[i].(status := next, attempts := attempts) else nodes[i]))
  }

  lemma FindAt(nodes: seq<ExecutionNode>, k: nat)
    requires UniqueIds(nodes) && k < |nodes|
    ensures Find(nodes, nodes[k].id) == Some(k)
  {
    var r := Find(nodes, nodes[k].id);
    assert r.Some?;
    assert r.value == k;
  }

  /** With unique ids a transition either throws or rewrites exactly its own node; it throws
      exactly on an edge outside the table or a fourth start. */
  lemma TransitionAt(nodes: seq<ExecutionNode>, k: nat, next: Status)
    requires Valid(nodes) && k < |nodes|
    ensures var n := nodes[k];
      var r := Transition(nodes, n.id, next);
      && (r.Some? <==> LegalTransition(n.status, next) && !(next == Running && n.attempts >= 3))
      && (r.Some? ==> r.value == nodes[k := n.(status := next,
                                               attempts := if next == Running then n.attempts + 1 else n.attempts)])
  {
    FindAt(nodes, k);
    var n := nodes[k];
    var r := Transition(nodes, n.id, next);
    var attempts := if next == Running then n.attempts + 1 else n.attempts;
    if r.Some? {
      assert r.value == nodes[k := n.(status := next, attempts := attempts)];
    }
  }

  // ---- Runnable nodes ----

  predicate DependenciesPassed(nodes: seq<ExecutionNode>, n: ExecutionNode) {
    forall d :: d in n.dependencies ==> exists k :: 0 <= k < |nodes| && nodes[k].id == d && nodes[k].status == Passed
  }

  predicate Ready(nodes: seq<ExecutionNode>, k: nat)
    requires k < |nodes|
  {
    nodes[k].status == Queued && nodes[k].attempts < 3 && DependenciesPassed(nodes, nodes[k])
  }

  ghost predicate Increasing(ks: seq<nat>) { forall i, j :: 0 <= i < j < |ks| ==> ks[i] < ks[j] }

  ghost predicate AllReady(nodes: seq<ExecutionNode>, ks: seq<nat>) {
    forall i :: 0 <= i < |ks| ==> ks[i] < |nodes| && Ready(nodes, ks[i])
  }

  ghost predicate DisjointFiles(nodes: seq<ExecutionNode>, ks: seq<nat>)
    requires AllReady(nodes, ks)
  {
    forall i, j :: 0 <= i < j < |ks| ==> nodes[ks[i]].files !! nodes[ks[j]].files
  }

  /** Some chosen node before position `k` has the file `f` in its scope. */
  ghost predicate ReservedBefore(nodes: seq<ExecutionNode>, ks: seq<nat>, k: nat, f: string)
    requires AllReady(nodes, ks)
  {
    exists i :: 0 <= i < |ks| && ks[i] < k && f in nodes[ks[i]].files
  }

  /** Node `k` was passed over: an earlier chosen node writes one of its files. */
  ghost predicate Conflicted(nodes: seq<ExecutionNode>, ks: seq<nat>, k: nat)
    requires AllReady(nodes, ks) && k < |nodes|
  {
    exists f :: f in nodes[k].files && ReservedBefore(nodes, ks, k, f)
  }

  /** The choice among the first `limit` nodes: ready, in plan order, pairwise disjoint, and
      maximal in that every ready node passed over conflicts with an earlier choice. */
  ghost predicate ChoiceUpTo(nodes: seq<ExecutionNode>, ks: seq<nat>, limit: nat)
    requires limit <= |nodes|
  {
    && AllReady(nodes, ks) && Increasing(ks) && DisjointFiles(nodes, ks)
    && (forall i :: 0 <= i < |ks| ==> ks[i] < limit)
    && (forall k :: 0 <= k < limit && Ready(nodes, k) && k !in ks ==> Conflicted(nodes, ks, k))
  }

  lemma ReservedSnoc(nodes: seq<ExecutionNode>, ks: seq<nat>, k: nat, m: nat, f: string)
    requires k < |nodes| && AllReady(nodes, ks) && Ready(nodes, k)
    ensures ReservedBefore(nodes, ks + [k], m, f) <==> ReservedBefore(nodes, ks, m, f) || (k < m && f in nodes[k].files)
  {
    var all := ks + [k];
    if ReservedBefore(nodes, ks, m, f) {
      var i :| 0 <= i < |ks| && ks[i] < m && f in nodes[ks[i]].files;
      assert all[i] == ks[i];
    }
    assert all[|ks|] == k;
  }

  lemma ChosenDisjoint(nodes: seq<ExecutionNode>, ks: seq<nat>, k: nat)
    requires k < |nodes| && AllReady(nodes, ks) && Ready(nodes, k) && DisjointFiles(nodes, ks)
    requires forall i :: 0 <= i < |ks| ==> ks[i] < k
    requires forall f :: f in nodes[k].files ==> !ReservedBefore(nodes, ks, k, f)
    ensures DisjointFiles(nodes, ks + [k])
  {
    forall i | 0 <= i < |ks| ensures nodes[ks[i]].files !! nodes[k].files {
      assert forall f :: f in nodes[ks[i]].files ==> ReservedBefore(nodes, ks, k, f);
    }
  }

  lemma ChooseNode(nodes: seq<ExecutionNode>, ks: seq<nat>, k: nat)
    requires k < |nodes| && ChoiceUpTo(nodes, ks, k) && Ready(nodes, k)
    requires forall f :: f in nodes[k].files ==> !ReservedBefore(nodes, ks, k, f)
    ensures ChoiceUpTo(nodes, ks + [k], k + 1)
    ensures forall f :: ReservedBefore(nodes, ks + [k], k + 1, f) <==> ReservedBefore(nodes, ks, k, f) || f in nodes[k].files
  {
    var all := ks + [k];
    ChosenDisjoint(nodes, ks, k);
    forall f: string
      ensures ReservedBefore(nodes, all, k + 1, f) <==> ReservedBefore(nodes, ks, k, f) || f in nodes[k].files
    {
      ReservedSnoc(nodes, ks, k, k + 1, f);
    }
    forall m | 0 <= m < k && Ready(nodes, m) && m !in all ensures Conflicted(nodes, all, m) {
      assert m !in ks;
      var f :| f in nodes[m].files && ReservedBefore(nodes, ks, m, f);
      ReservedSnoc(nodes, ks, k, m, f);
    }
  }

  lemma SkipNode(nodes: seq<ExecutionNode>, ks: seq<nat>, k: nat)
    requires k < |nodes| && ChoiceUpTo(nodes, ks, k) && (Ready(nodes, k) ==> Conflicted(nodes, ks, k))
    ensures ChoiceUpTo(nodes, ks, k + 1)
    ensures forall f :: ReservedBefore(nodes, ks, k + 1, f) <==> ReservedBefore(nodes, ks, k, f)
  {
  }

  /** Nothing is chosen only when nothing is ready: file conflicts alone never stall a plan. */
  lemma EmptyChoice(nodes: seq<ExecutionNode>, ks: seq<nat>)
    requires ChoiceUpTo(nodes, ks, |nodes|)
    ensures ks == [] <==> forall k :: 0 <= k < |nodes| ==> !Ready(nodes, k)
  {
    if ks != [] {
      assert Ready(nodes, ks[0]);
    } else {
      forall k | 0 <= k < |nodes| ensures !Ready(nodes, k) {
        assert k !in ks;
        assert !Conflicted(nodes, ks, k);
      }
    }
  }

  lemma ChosenToo(nodes: seq<ExecutionNode>, ks: seq<nat>, ls: seq<nat>, k: nat)
    requires ChoiceUpTo(nodes, ks, |nodes|) && ChoiceUpTo(nodes, ls, |nodes|) && k in ks
    requires forall m: nat :: m < k ==> (m in ks <==> m in ls)
    ensures k in ls
  {
    var p :| 0 <= p < |ks| && ks[p] == k;
    forall i | 0 <= i < |ls| && ls[i] < k ensures nodes[ls[i]].files !! nodes[k].files {
      assert ls[i] in ks;
      var j :| 0 <= j < |ks| && ks[j] == ls[i];
      OrderReflects(ks, j, p);
    }
    assert Ready(nodes, k);
    assert !Conflicted(nodes, ls, k);
  }

  lemma OrderReflects(ks: seq<nat>, i: nat, j: nat)
    requires Increasing(ks) && i < |ks| && j < |ks| && ks[i] < ks[j]
    ensures i < j
  {
  }

  lemma {:induction false} SameChoiceBelow(nodes: seq<ExecutionNode>, ks: seq<nat>, ls: seq<nat>, k: nat)
    requires ChoiceUpTo(nodes, ks, |nodes|) && ChoiceUpTo(nodes, ls, |nodes|)
    ensures forall m: nat :: m < k ==> (m in ks <==> m in ls)
    decreases k
  {
    if k > 0 {
      SameChoiceBelow(nodes, ks, ls, k - 1);
      if k - 1 in ks {
        ChosenToo(nodes, ks, ls, k - 1);
      }
      if k - 1 in ls {
        ChosenToo(nodes, ls, ks, k - 1);
      }
    }
  }

  lemma LastIsLargest(ks: seq<nat>)
    requires Increasing(ks) && ks != []
    ensures forall x :: x in ks ==> x <= ks[|ks| - 1]
    ensures forall x :: x in ks[..|ks| - 1] <==> x in ks && x != ks[|ks| - 1]
  {
    var n := |ks| - 1;
    assert ks == ks[..n] + [ks[n]];
    forall x | x in ks[..n] ensures x < ks[n] {
      var i :| 0 <= i < n && ks[..n][i] == x;
      assert ks[i] == x;
    }
  }

  lemma FirstIsMember(ks: seq<nat>)
    ensures ks != [] ==> ks[0] in ks
  {
  }

  lemma SameLast(ks: seq<nat>, ls: seq<nat>)
    requires Increasing(ks) && Increasing(ls) && ks != [] && forall k :: k in ks <==> k in ls
    ensures ls != [] && ks[|ks| - 1] == ls[|ls| - 1]
    ensures var a, b := ks[..|ks| - 1], ls[..|ls| - 1]; Increasing(a) && Increasing(b) && forall x :: x in a <==> x in b
  {
    assert ks[|ks| - 1] in ls;
    LastIsLargest(ks);
    LastIsLargest(ls);
    assert ls[|ls| - 1] in ks;
    var a, b := ks[..|ks| - 1], ls[..|ls| - 1];
    forall x: nat ensures x in a <==> x in b {
      assert x in ks <==> x in ls;
    }
  }

  lemma {:induction false} IncreasingIsUnique(ks: seq<nat>, ls: seq<nat>)
    requires Increasing(ks) && Increasing(ls) && forall k :: k in ks <==> k in ls
    ensures ks == ls
    decreases |ks|
  {
    FirstIsMember(ls);
    if ks != [] {
      SameLast(ks, ls);
      var a, b := ks[..|ks| - 1], ls[..|ls| - 1];
      IncreasingIsUnique(a, b);
      assert ks == a + [ks[|ks| - 1]] && ls == b + [ls[|ls| - 1]];
    }
  }

  /** The choice is the only one of its kind: what may start is determined by the plan. */
  lemma ChoiceIsUnique(nodes: seq<ExecutionNode>, ks: seq<nat>, ls: seq<nat>)
    requires ChoiceUpTo(nodes, ks, |nodes|) && ChoiceUpTo(nodes, ls, |nodes|)
    ensures ks == ls
  {
    SameChoiceBelow(nodes, ks, ls, |nodes|);
    forall k ensures k in ks <==> k in ls {
      if k in ks {
        var i :| 0 <= i < |ks| && ks[i] == k;
      }
      if k in ls {
        var i :| 0 <= i < |ls| && ls[i] == k;
      }
    }
    IncreasingIsUnique(ks, ls);
  }

  /** Positions, in plan order, of the nodes that may start now: each is ready, no two of them
      share a file, and every ready node left out shares a file with a chosen earlier one. */
  method GetRunnableExecutionNodes(nodes: seq<ExecutionNode>) returns (runnable: seq<nat>)
    ensures ChoiceUpTo(nodes, runnable, |nodes|)
  {
    runnable := [];
    var reserved: set<string> := {};
    for k := 0 to |nodes|
      invariant ChoiceUpTo(nodes, runnable, k)
      invariant forall f :: f in reserved <==> ReservedBefore(nodes, runnable, k, f)
    {
      if Ready(nodes, k) && nodes[k].files * reserved == {} {
        assert forall f :: f in nodes[k].files ==> f !in nodes[k].files * reserved;
        ChooseNode(nodes, runnable, k);
        runnable := runnable + [k];
        reserved := reserved + nodes[k].files;
      } else {
        if Ready(nodes, k) {
          ghost var f :| f in nodes[k].files * reserved;
          assert ReservedBefore(nodes, runnable, k, f);
        }
        SkipNode(nodes, runnable, k);
      }
    }
  }
}
