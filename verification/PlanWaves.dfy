/** One wave of the plan coordinator: authorized starts, concurrent runs that finish in any order,
    and the settlement of each outcome (execution-node-coordinator.ts:142-182, 386-515). */
module PlanWaves {
  import opened Options
  import opened ExecutionNodes
  import opened PlanBlocking

  type OutcomeStatus = s: Status | s == Passed || s == Failed || s == Blocked witness Passed

  /** `validationAttempts` is None where the source sees undefined or a non-integer. */
  datatype Outcome = Outcome(status: OutcomeStatus, detail: Option<string>, validationAttempts: Option<int>)

  /** What one call of `runNode` does; `Threw` carries the safe diagnostic of the exception. */
  datatype RunResult = Returned(outcome: Outcome) | RateLimited(code: string) | Threw(diagnostic: string)

  datatype Reply = Allow | Reject(reason: Option<string>) | ThrowReply(tag: string)

  /** Everything the coordinator cannot control, as functions of a clock that advances at each
      await: the operation authorizer (absent or present), the node callback, the order in which
      concurrent calls finish, and the moment the caller aborts. */
  datatype Environment = Environment(
    authorizer: bool,
    reply: nat -> Reply,
    run: nat -> RunResult,
    pick: nat -> nat,
    abortAt: Option<nat>)
  {
    predicate Aborted(t: nat) { abortAt.Some? && abortAt.value <= t }
  }

  datatype Authorization = Authorization(allowed: bool, reason: string)

  function Authorize(env: Environment, n: ExecutionNode, t: nat): Authorization {
    if env.Aborted(t) then Authorization(false, "execution cancellation requested")
    else if !env.authorizer then
      if n.recipe then Authorization(false, "recipe node has no server-owned operation authorization")
      else Authorization(true, "")
    else
      match env.reply(t)
      case Allow => Authorization(true, "")
      case Reject(reason) =>
        Authorization(false, if reason.Some? then reason.value else "server-owned operation authorization rejected the node")
      case ThrowReply(tag) => Authorization(false, "server-owned operation authorization failed: " + tag)
  }

  datatype PreviousFailure = PreviousFailure(attempt: nat, detail: string)

  datatype Ask = Ask(pos: nat, attempt: nat, allowed: bool)
  datatype Call = Call(pos: nat, id: string, attempt: nat, previous: Option<PreviousFailure>, result: RunResult)

  /** The settlement of one call: when its completion was asked for, whether it was allowed and,
      for a failure that has attempts left, whether another attempt was. */
  datatype Completion = Completion(at: nat, allowed: bool, retry: Option<bool>)

  /** The record of a wave: the plan when its first start authorization is asked, and that time; the
      start authorizations; the plan when `runNode` is called; the calls; the rate limit recorded by
      one of them; the settlements, in the order of the calls; and the plan the wave leaves. */
  datatype Wave = Wave(
    before: seq<ExecutionNode>,
    startAt: nat,
    asks: seq<Ask>,
    snapshot: seq<ExecutionNode>,
    calls: seq<Call>,
    limit: Option<string>,
    completions: seq<Completion>,
    after: seq<ExecutionNode>)

  /** When the calls of a wave are issued, and when the last of them has ended. */
  function RunAt(w: Wave): nat { w.startAt + |w.asks| }

  function DoneAt(w: Wave): nat { RunAt(w) + |w.calls| }

  // ---- Starting ----

  function Refused(n: ExecutionNode, reason: string): ExecutionNode {
    WithFailure(n.(status := Blocked), Blocked, reason)
  }

  function BlockUnauthorizedNode(nodes: seq<ExecutionNode>, id: string, reason: string): seq<ExecutionNode>
    requires Valid(nodes)
  {
    SetLastFailure(TransitionToBlocked(nodes, id), id, Blocked, reason)
  }

  lemma BlockUnauthorizedAt(nodes: seq<ExecutionNode>, k: nat, reason: string)
    requires Valid(nodes) && k < |nodes| && !Terminal(nodes[k])
    ensures BlockUnauthorizedNode(nodes, nodes[k].id, reason) == nodes[k := Refused(nodes[k], reason)]
    ensures Valid(nodes[k := Refused(nodes[k], reason)])
  {
    TransitionToBlockedAt(nodes, k);
    var next := nodes[k := BlockedNode(nodes[k])];
    PointUpdateValid(nodes, k, BlockedNode(nodes[k]));
    SetLastFailureAt(next, k, Blocked, reason);
    PointUpdateValid(nodes, k, Refused(nodes[k], reason));
    assert next[k := Refused(nodes[k], reason)] == nodes[k := Refused(nodes[k], reason)];
  }

  function Started(env: Environment, n: ExecutionNode, t: nat): ExecutionNode {
    Answered(n, Authorize(env, n, t))
  }

  function Answered(n: ExecutionNode, authorization: Authorization): ExecutionNode {
    if authorization.allowed then n.(status := Running, attempts := n.attempts + 1) else Refused(n, authorization.reason)
  }

  method StartOrRefuse(nodes: seq<ExecutionNode>, k: nat, authorization: Authorization)
    returns (next: seq<ExecutionNode>)
    requires Valid(nodes) && k < |nodes| && nodes[k].status == Queued && nodes[k].attempts < 3
    ensures next == nodes[k := Answered(nodes[k], authorization)]
  {
    if !authorization.allowed {
      BlockUnauthorizedAt(nodes, k, authorization.reason);
      next := BlockUnauthorizedNode(nodes, nodes[k].id, authorization.reason);
    } else {
      TransitionAt(nodes, k, Running);
      next := UpdateNode(nodes, nodes[k].id, Running);
    }
  }

  /** The answers to the start authorizations of a wave, asked one after the other. */
  function Authorizations(env: Environment, before: seq<ExecutionNode>, wave: seq<nat>, t: nat): (r: seq<Authorization>)
    requires forall i :: 0 <= i < |wave| ==> wave[i] < |before|
    ensures |r| == |wave| && forall i :: 0 <= i < |wave| ==> r[i] == Authorize(env, before[wave[i]], t + i)
  {
    seq(|wave|, i requires 0 <= i < |wave| => Authorize(env, before[wave[i]], t + i))
  }

  /** The first `m` members of the wave have been answered; every other node is untouched. */
  ghost predicate StartedUpTo(env: Environment, before: seq<ExecutionNode>, wave: seq<nat>, m: nat, t: nat,
                              nodes: seq<ExecutionNode>, asks: seq<Ask>)
    requires AllReady(before, wave) && m <= |wave|
  {
    StartedWith(before, wave, m, Authorizations(env, before, wave, t), nodes, asks)
  }

  ghost predicate StartedWith(before: seq<ExecutionNode>, wave: seq<nat>, m: nat, answers: seq<Authorization>,
                              nodes: seq<ExecutionNode>, asks: seq<Ask>)
    requires AllReady(before, wave) && m <= |wave| == |answers|
  {
    && Valid(nodes) && |nodes| == |before| && |asks| == m
    && (forall i :: 0 <= i < m ==> nodes[wave[i]] == Answered(before[wave[i]], answers[i]))
    && (forall k :: 0 <= k < |nodes| && k !in wave[..m] ==> nodes[k] == before[k])
    && (forall i :: 0 <= i < m ==> asks[i] == Ask(wave[i], before[wave[i]].attempts + 1, answers[i].allowed))
  }

  lemma AnsweredIsValid(nodes: seq<ExecutionNode>, k: nat, answer: Authorization)
    requires Valid(nodes) && k < |nodes| && nodes[k].status == Queued && nodes[k].attempts < 3
    ensures Valid(nodes[k := Answered(nodes[k], answer)])
  {
    PointUpdateValid(nodes, k, Answered(nodes[k], answer));
  }

  lemma StartOne(before: seq<ExecutionNode>, wave: seq<nat>, m: nat, answers: seq<Authorization>,
                 nodes: seq<ExecutionNode>, asks: seq<Ask>)
    requires AllReady(before, wave) && Increasing(wave) && m < |wave| == |answers|
    requires StartedWith(before, wave, m, answers, nodes, asks)
    ensures nodes[wave[m]] == before[wave[m]] && before[wave[m]].status == Queued && before[wave[m]].attempts < 3
    ensures var n := before[wave[m]];
      StartedWith(before, wave, m + 1, answers, nodes[wave[m] := Answered(n, answers[m])],
                  asks + [Ask(wave[m], n.attempts + 1, answers[m].allowed)])
  {
    var k := wave[m];
    assert Ready(before, k);
    assert k !in wave[..m];
    assert wave[..m + 1] == wave[..m] + [k];
    AnsweredIsValid(nodes, k, answers[m]);
  }

  method StartMember(before: seq<ExecutionNode>, wave: seq<nat>, i: nat, authorization: Authorization,
                     nodes: seq<ExecutionNode>, asks: seq<Ask>, ghost answers: seq<Authorization>)
    returns (next: seq<ExecutionNode>, asked: seq<Ask>)
    requires AllReady(before, wave) && Increasing(wave) && i < |wave| == |answers| && authorization == answers[i]
    requires StartedWith(before, wave, i, answers, nodes, asks)
    ensures StartedWith(before, wave, i + 1, answers, next, asked)
  {
    StartOne(before, wave, i, answers, nodes, asks);
    asked := asks + [Ask(wave[i], nodes[wave[i]].attempts + 1, authorization.allowed)];
    next := StartOrRefuse(nodes, wave[i], authorization);
  }

  method StartWave(env: Environment, before: seq<ExecutionNode>, wave: seq<nat>, t0: nat)
    returns (nodes: seq<ExecutionNode>, asks: seq<Ask>, t: nat)
    requires Valid(before) && AllReady(before, wave) && Increasing(wave)
    ensures StartedUpTo(env, before, wave, |wave|, t0, nodes, asks)
    ensures t == t0 + |wave|
  {
    nodes, asks, t := before, [], t0;
    ghost var answers := Authorizations(env, before, wave, t0);
    for i := 0 to |wave|
      invariant StartedWith(before, wave, i, answers, nodes, asks)
      invariant t == t0 + i
    {
      StillWaiting(before, wave, i, answers, nodes, asks);
      var authorization := Authorize(env, nodes[wave[i]], t);
      nodes, asks := StartMember(before, wave, i, authorization, nodes, asks, answers);
      t := t + 1;
    }
  }

  lemma StillWaiting(before: seq<ExecutionNode>, wave: seq<nat>, i: nat, answers: seq<Authorization>,
                     nodes: seq<ExecutionNode>, asks: seq<Ask>)
    requires AllReady(before, wave) && Increasing(wave) && i < |wave| == |answers|
    requires StartedWith(before, wave, i, answers, nodes, asks)
    ensures wave[i] < |nodes| && nodes[wave[i]] == before[wave[i]]
  {
    assert Ready(before, wave[i]);
    assert wave[i] !in wave[..i];
  }

  /** The members of the wave that are now running, in wave order. */
  function RunningAmong(nodes: seq<ExecutionNode>, wave: seq<nat>): (r: seq<nat>)
    requires forall i :: 0 <= i < |wave| ==> wave[i] < |nodes|
    ensures forall k :: k in r <==> k in wave && nodes[k].status == Running
    ensures |r| <= |wave| && forall i :: 0 <= i < |r| ==> r[i] in wave && r[i] < |nodes|
  {
    if wave == [] then []
    else
      var rest := RunningAmong(nodes, wave[1..]);
      assert wave == [wave[0]] + wave[1..];
      if nodes[wave[0]].status == Running then [wave[0]] + rest else rest
  }

  lemma {:induction false} RunningIncreases(nodes: seq<ExecutionNode>, wave: seq<nat>)
    requires (forall i :: 0 <= i < |wave| ==> wave[i] < |nodes|) && Increasing(wave)
    ensures Increasing(RunningAmong(nodes, wave))
  {
    if wave != [] {
      RunningIncreases(nodes, wave[1..]);
      var rest := RunningAmong(nodes, wave[1..]);
      forall i | 0 <= i < |rest| ensures wave[0] < rest[i] {
        assert rest[i] in wave[1..];
      }
    }
  }

  // ---- Running ----

  function LimitReason(code: string): string {
    "Provider " + code + " stopped this execution; remaining nodes were not retried."
  }

  /** The reason recorded by the first rate limit among the calls that finished in this order. */
  function FirstLimit(calls: seq<Call>, order: seq<nat>): Option<string>
    requires forall i :: 0 <= i < |order| ==> order[i] < |calls|
  {
    if order == [] then None
    else
      var earlier := FirstLimit(calls, order[..|order| - 1]);
      var result := calls[order[|order| - 1]].result;
      if earlier.Some? || !result.RateLimited? then earlier else Some(LimitReason(result.code))
  }

  lemma {:induction false} FirstLimitIff(calls: seq<Call>, order: seq<nat>)
    requires forall i :: 0 <= i < |order| ==> order[i] < |calls|
    ensures FirstLimit(calls, order).Some? <==> exists i :: 0 <= i < |order| && calls[order[i]].result.RateLimited?
  {
    if order != [] {
      FirstLimitIff(calls, order[..|order| - 1]);
    }
  }

  /** What a call that finishes once `limit` has been recorded (its own included) counts as. */
  function Resolve(result: RunResult, limit: Option<string>): Outcome {
    match result
    case Returned(outcome) => outcome
    case RateLimited(_) => Outcome(Blocked, limit, None)
    case Threw(diagnostic) =>
      if limit.Some? then Outcome(Blocked, limit, None) else Outcome(Failed, Some(diagnostic), None)
  }

  function CallsOf(env: Environment, nodes: seq<ExecutionNode>, active: seq<nat>,
                   previous: map<string, PreviousFailure>, t: nat): (r: seq<Call>)
    requires forall i :: 0 <= i < |active| ==> active[i] < |nodes|
    ensures |r| == |active|
    ensures forall i :: 0 <= i < |r| ==> r[i].pos == active[i]
  {
    seq(|active|, i requires 0 <= i < |active| =>
      var n := nodes[active[i]];
      Call(active[i], n.id, n.attempts, if n.id in previous then Some(previous[n.id]) else None, env.run(t + i)))
  }

  /** `order` lists the calls that have finished, `pending` those that have not. */
  ghost predicate Partition(order: seq<nat>, pending: seq<nat>, n: nat) {
    && (forall i :: 0 <= i < |order| ==> order[i] < n)
    && (forall i :: 0 <= i < |pending| ==> pending[i] < n && pending[i] !in order)
    && (forall i, j :: 0 <= i < j < |order| ==> order[i] != order[j])
    && (forall i, j :: 0 <= i < j < |pending| ==> pending[i] != pending[j])
    && (forall j: nat :: j < n ==> j in order || j in pending)
    && |order| + |pending| == n
  }

  lemma FinishNext(order: seq<nat>, pending: seq<nat>, p: nat, n: nat)
    requires Partition(order, pending, n) && p < |pending|
    ensures Partition(order + [pending[p]], pending[..p] + pending[p + 1..], n)
  {
    var rest := pending[..p] + pending[p + 1..];
    var all := order + [pending[p]];
    forall i | 0 <= i < |rest| ensures rest[i] == pending[if i < p then i else i + 1] {}
    forall j: nat | j < n ensures j in all || j in rest {
      if j !in order && j != pending[p] {
        var i :| 0 <= i < |pending| && pending[i] == j;
        assert rest[if i < p then i else i - 1] == j;
      } else if j == pending[p] {
        assert all[|order|] == j;
      } else {
        var i :| 0 <= i < |order| && order[i] == j;
        assert all[i] == j;
      }
    }
  }

  ghost predicate ResolvedUpTo(calls: seq<Call>, order: seq<nat>, outcomes: seq<Outcome>) {
    && |outcomes| == |calls|
    && (forall i :: 0 <= i < |order| ==> order[i] < |calls|)
    && (forall i :: 0 <= i < |order| ==>
          outcomes[order[i]] == Resolve(calls[order[i]].result, FirstLimit(calls, order[..i + 1])))
  }

  lemma {:induction false} ResolvedStays(calls: seq<Call>, order: seq<nat>, outcomes: seq<Outcome>, call: nat, o: Outcome, i: nat)
    requires ResolvedUpTo(calls, order, outcomes) && call < |calls| && call !in order && i < |order|
    ensures var all := order + [call];
      all[i] < |calls| && (forall j :: 0 <= j < i + 1 ==> all[j] < |calls|)
      && outcomes[call := o][all[i]] == Resolve(calls[all[i]].result, FirstLimit(calls, all[..i + 1]))
  {
    var all := order + [call];
    assert all[i] == order[i] && order[i] in order;
    assert all[..i + 1] == order[..i + 1];
  }

  lemma {:induction false} ResolveOneMore(calls: seq<Call>, order: seq<nat>, outcomes: seq<Outcome>, call: nat)
    requires ResolvedUpTo(calls, order, outcomes) && call < |calls| && call !in order
    ensures ResolvedUpTo(calls, order + [call],
                         outcomes[call := Resolve(calls[call].result, FirstLimit(calls, order + [call]))])
  {
    var all := order + [call];
    var o := Resolve(calls[call].result, FirstLimit(calls, all));
    forall i | 0 <= i < |order|
      ensures outcomes[call := o][all[i]] == Resolve(calls[all[i]].result, FirstLimit(calls, all[..i + 1]))
    {
      ResolvedStays(calls, order, outcomes, call, o, i);
    }
    assert all[..|all|] == all;
  }

  lemma {:induction false} NextLimit(calls: seq<Call>, order: seq<nat>, call: nat)
    requires (forall i :: 0 <= i < |order| ==> order[i] < |calls|) && call < |calls|
    ensures FirstLimit(calls, order + [call]) ==
      match calls[call].result
      case RateLimited(code) =>
        (if FirstLimit(calls, order).Some? then FirstLimit(calls, order) else Some(LimitReason(code)))
      case _ => FirstLimit(calls, order)
  {
    assert (order + [call])[..|order|] == order;
  }

  /** All calls are issued together; they finish one by one in an order the environment picks. */
  method RunWave(env: Environment, nodes: seq<ExecutionNode>, active: seq<nat>,
                 previous: map<string, PreviousFailure>, t0: nat)
    returns (calls: seq<Call>, outcomes: seq<Outcome>, order: seq<nat>, limit: Option<string>, t: nat)
    requires forall i :: 0 <= i < |active| ==> active[i] < |nodes|
    ensures calls == CallsOf(env, nodes, active, previous, t0)
    ensures Partition(order, [], |calls|) && ResolvedUpTo(calls, order, outcomes)
    ensures limit == FirstLimit(calls, order)
    ensures t == t0 + |calls|
  {
    calls := CallsOf(env, nodes, active, previous, t0);
    t := t0;
    order, limit := [], None;
    outcomes := seq(|calls|, i => Outcome(Failed, None, None));
    var pending: seq<nat> := seq(|calls|, i requires 0 <= i < |calls| => i);
    forall j: nat | j < |calls| ensures j in pending {
      assert pending[j] == j;
    }
    while pending != []
      invariant Partition(order, pending, |calls|)
      invariant ResolvedUpTo(calls, order, outcomes)
      invariant limit == FirstLimit(calls, order)
      invariant t == t0 + |order|
      decreases |pending|
    {
      var p := env.pick(t) % |pending|;
      var call := pending[p];
      FinishNext(order, pending, p, |calls|);
      NextLimit(calls, order, call);
      if calls[call].result.RateLimited? && limit.None? {
        limit := Some(LimitReason(calls[call].result.code));
      }
      ResolveOneMore(calls, order, outcomes, call);
      outcomes := outcomes[call := Resolve(calls[call].result, limit)];
      pending := pending[..p] + pending[p + 1..];
      order := order + [call];
      t := t + 1;
    }
  }
}
