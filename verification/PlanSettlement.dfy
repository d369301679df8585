/** Settlement of a wave: each outcome is fenced, recorded, and passed, blocked or retried
    (execution-node-coordinator.ts:459-515). */
module PlanSettlement {
  import opened Options
  import opened ExecutionNodes
  import opened PlanBlocking
  import opened PlanWaves

  function Consume(n: ExecutionNode, consumed: Option<int>): ExecutionNode {
    if consumed.None? || consumed.value <= 0 then n
    else
      var total := n.validationAttempts + consumed.value;
      n.(validationAttempts := if total > MAX_REPAIR_ATTEMPTS then MAX_REPAIR_ATTEMPTS else total)
  }

  function RecordValidationAttempts(nodes: seq<ExecutionNode>, id: string, consumed: Option<int>): seq<ExecutionNode> {
    seq(|nodes|, i requires 0 <= i < |nodes| => if nodes[i].id == id then Consume(nodes[i], consumed) else nodes[i])
  }

  predicate HasAttemptsLeft(failed: ExecutionNode) {
    failed.attempts < AttemptLimit(failed) && failed.validationAttempts < MAX_REPAIR_ATTEMPTS
  }

  predicate MayRetry(env: Environment, failed: ExecutionNode, t: nat) { HasAttemptsLeft(failed) && !env.Aborted(t) }

  function FailureDetail(o: Outcome): string {
    if o.detail.Some? then o.detail.value else "The execution node failed."
  }

  function BlockDetail(o: Outcome, limit: Option<string>): string {
    if o.status == Failed && limit.Some? then limit.value
    else if o.detail.Some? then o.detail.value
    else if limit.Some? then limit.value
    else "execution node blocked"
  }

  function RetryDetail(o: Outcome): string {
    if o.detail.Some? then o.detail.value else "The previous execution attempt failed."
  }

  /** The failed node as it is when the retry is decided. */
  function FailedNode(n: ExecutionNode, o: Outcome): ExecutionNode {
    WithFailure(Consume(n, o.validationAttempts).(status := Failed), Failed, FailureDetail(o))
  }

  predicate Fails(o: Outcome, limit: Option<string>) { o.status == Failed && limit.None? }

  /** What settlement makes of one running node whose completion is asked for at time `t`. */
  function Settled(env: Environment, n: ExecutionNode, o: Outcome, limit: Option<string>, t: nat): ExecutionNode {
    var completion := Authorize(env, n, t);
    if !completion.allowed then Refused(n, completion.reason)
    else if o.status == Passed then Consume(n, o.validationAttempts).(status := Passed, lastFailure := None)
    else if !Fails(o, limit) then
      WithFailure(Consume(n, o.validationAttempts).(status := Blocked), Blocked, BlockDetail(o, limit))
    else
      var failed := FailedNode(n, o);
      if !MayRetry(env, failed, t + 1) then failed.(status := Blocked)
      else
        var retry := Authorize(env, failed, t + 1);
        if !retry.allowed then Refused(failed, retry.reason) else failed.(status := Queued)
  }

  /** What is asked and answered while one running node is settled. */
  function Completed(env: Environment, n: ExecutionNode, o: Outcome, limit: Option<string>, t: nat): Completion {
    var allowed := Authorize(env, n, t).allowed;
    var retried := allowed && Fails(o, limit) && HasAttemptsLeft(FailedNode(n, o));
    Completion(t, allowed, if retried then Some(Authorize(env, FailedNode(n, o), t + 1).allowed) else None)
  }

  /** The clock after a settlement: one await for the completion, one for a retry that is not
      given up because of an abort. */
  function Past(env: Environment, c: Completion): nat {
    c.at + (if c.retry.Some? && !env.Aborted(c.at + 1) then 2 else 1)
  }

  function EndOf(env: Environment, completions: seq<Completion>, t0: nat): nat {
    if completions == [] then t0 else Past(env, completions[|completions| - 1])
  }

  /** Settlements follow one another from `t0` on. */
  ghost predicate Timed(env: Environment, completions: seq<Completion>, t0: nat) {
    forall i :: 0 <= i < |completions| ==> completions[i].at == EndOf(env, completions[..i], t0)
  }

  /** Settlement never leaves a node running or failed, never changes its attempts, passes it only
      on an outcome that says so, and queues it again only below its attempt limit. */
  lemma SettledFacts(env: Environment, n: ExecutionNode, o: Outcome, limit: Option<string>, t: nat)
    requires NodeOk(n) && n.status == Running
    ensures var s := Settled(env, n, o, limit, t);
      && SameNode(n, s) && NodeOk(s) && s.attempts == n.attempts
      && s.status in {Passed, Blocked, Queued}
      && (s.status == Passed <==> o.status == Passed && Authorize(env, n, t).allowed)
      && (s.status == Queued ==> s.attempts < AttemptLimit(s))
      && (s.status == Queued <==>
            && Authorize(env, n, t).allowed && Fails(o, limit)
            && MayRetry(env, FailedNode(n, o), t + 1) && Authorize(env, FailedNode(n, o), t + 1).allowed)
  {
    if Authorize(env, n, t).allowed && o.status != Passed && Fails(o, limit) {
      FailedFacts(n, o);
    }
  }

  lemma FailedFacts(n: ExecutionNode, o: Outcome)
    requires NodeOk(n)
    ensures SameNode(n, FailedNode(n, o)) && NodeOk(FailedNode(n, o)) && FailedNode(n, o).attempts == n.attempts
    ensures AttemptLimit(FailedNode(n, o)) == AttemptLimit(n)
  {
  }

  method SettleFailure(env: Environment, nodes: seq<ExecutionNode>, k: nat, o: Outcome, t0: nat,
                       previous0: map<string, PreviousFailure>)
    returns (next: seq<ExecutionNode>, t: nat, previous: map<string, PreviousFailure>)
    requires Valid(nodes) && k < |nodes| && nodes[k].status == Failed
    ensures var failed := nodes[k];
      next == nodes[k :=
        if !MayRetry(env, failed, t0) then failed.(status := Blocked)
        else var retry := Authorize(env, failed, t0);
          if !retry.allowed then Refused(failed, retry.reason) else failed.(status := Queued)]
    ensures previous == if next[k].status == Queued
                        then previous0[nodes[k].id := PreviousFailure(nodes[k].attempts, Clip(RetryDetail(o)))]
                        else previous0
    ensures t == t0 + (if MayRetry(env, nodes[k], t0) then 1 else 0)
  {
    t, previous := t0, previous0;
    var failed := nodes[k];
    if MayRetry(env, failed, t) {
      var retry := Authorize(env, failed, t);
      t := t + 1;
      if !retry.allowed {
        BlockUnauthorizedAt(nodes, k, retry.reason);
        next := BlockUnauthorizedNode(nodes, failed.id, retry.reason);
      } else {
        previous := previous[failed.id := PreviousFailure(failed.attempts, Clip(RetryDetail(o)))];
        TransitionAt(nodes, k, Queued);
        next := UpdateNode(nodes, failed.id, Queued);
      }
    } else {
      TransitionToBlockedAt(nodes, k);
      next := TransitionToBlocked(nodes, failed.id);
    }
  }

  lemma ConsumeAt(nodes: seq<ExecutionNode>, k: nat, consumed: Option<int>)
    requires Valid(nodes) && k < |nodes|
    ensures RecordValidationAttempts(nodes, nodes[k].id, consumed) == nodes[k := Consume(nodes[k], consumed)]
    ensures Valid(nodes[k := Consume(nodes[k], consumed)])
  {
    PointUpdateValid(nodes, k, Consume(nodes[k], consumed));
  }

  /** A status change followed by a failure note, as one point update. */
  method MarkFailure(nodes: seq<ExecutionNode>, k: nat, status: Status, detail: string) returns (next: seq<ExecutionNode>)
    requires Valid(nodes) && k < |nodes| && nodes[k].status == Running && (status == Failed || status == Blocked)
    ensures next == nodes[k := WithFailure(nodes[k].(status := status), status, detail)] && Valid(next)
  {
    TransitionAt(nodes, k, status);
    next := UpdateNode(nodes, nodes[k].id, status);
    PointUpdateValid(nodes, k, next[k]);
    SetLastFailureAt(next, k, status, detail);
    PointUpdateValid(next, k, WithFailure(next[k], status, detail));
    next := SetLastFailure(next, nodes[k].id, status, detail);
  }

  method MarkPassed(nodes: seq<ExecutionNode>, k: nat) returns (next: seq<ExecutionNode>)
    requires Valid(nodes) && k < |nodes| && nodes[k].status == Running
    ensures next == nodes[k := nodes[k].(status := Passed, lastFailure := None)]
  {
    TransitionAt(nodes, k, Passed);
    next := UpdateNode(nodes, nodes[k].id, Passed);
    PointUpdateValid(nodes, k, next[k]);
    ClearLastFailureAt(next, k);
    next := ClearLastFailure(next, nodes[k].id);
  }

  method SettleOutcome(env: Environment, nodes: seq<ExecutionNode>, k: nat, o: Outcome, limit: Option<string>, t0: nat,
                       previous0: map<string, PreviousFailure>)
    returns (next: seq<ExecutionNode>, t: nat, previous: map<string, PreviousFailure>, completion: Completion)
    requires Valid(nodes) && k < |nodes| && nodes[k].status == Running
    ensures next == nodes[k := Settled(env, nodes[k], o, limit, t0)]
    ensures previous == if next[k].status == Queued
                        then previous0[nodes[k].id := PreviousFailure(nodes[k].attempts, Clip(RetryDetail(o)))]
                        else previous0
    ensures completion == Completed(env, nodes[k], o, limit, t0) && t == Past(env, completion)
  {
    t, previous := t0, previous0;
    var current := nodes[k];
    completion := Completed(env, current, o, limit, t);
    var authorization := Authorize(env, current, t);
    t := t + 1;
    if !authorization.allowed {
      BlockUnauthorizedAt(nodes, k, authorization.reason);
      next := BlockUnauthorizedNode(nodes, current.id, authorization.reason);
      return;
    }
    next, t, previous := SettleAllowed(env, nodes, k, o, limit, t, previous);
  }

  /** The rest of a settlement, once the completion is authorized. */
  method SettleAllowed(env: Environment, nodes: seq<ExecutionNode>, k: nat, o: Outcome, limit: Option<string>, t0: nat,
                       previous0: map<string, PreviousFailure>)
    returns (next: seq<ExecutionNode>, t: nat, previous: map<string, PreviousFailure>)
    requires Valid(nodes) && k < |nodes| && nodes[k].status == Running
    requires t0 > 0 && Authorize(env, nodes[k], t0 - 1).allowed
    ensures next == nodes[k := Settled(env, nodes[k], o, limit, t0 - 1)]
    ensures previous == if next[k].status == Queued
                        then previous0[nodes[k].id := PreviousFailure(nodes[k].attempts, Clip(RetryDetail(o)))]
                        else previous0
    ensures t == Past(env, Completed(env, nodes[k], o, limit, t0 - 1))
  {
    t, previous := t0, previous0;
    var current := nodes[k];
    ConsumeAt(nodes, k, o.validationAttempts);
    next := RecordValidationAttempts(nodes, current.id, o.validationAttempts);
    if o.status == Passed {
      next := MarkPassed(next, k);
    } else if o.status == Blocked || limit.Some? {
      next := MarkFailure(next, k, Blocked, BlockDetail(o, limit));
    } else {
      next, t, previous := SettleFailed(env, nodes, k, next, o, t, previous);
    }
  }

  /** The node has failed; `consumed` is the plan with its validation attempts recorded. */
  method SettleFailed(env: Environment, nodes: seq<ExecutionNode>, k: nat, consumed: seq<ExecutionNode>, o: Outcome, t0: nat,
                      previous0: map<string, PreviousFailure>)
    returns (next: seq<ExecutionNode>, t: nat, previous: map<string, PreviousFailure>)
    requires Valid(nodes) && k < |nodes| && nodes[k].status == Running
    requires consumed == nodes[k := Consume(nodes[k], o.validationAttempts)] && Valid(consumed)
    ensures var failed := FailedNode(nodes[k], o);
      next == nodes[k :=
        if !MayRetry(env, failed, t0) then failed.(status := Blocked)
        else var retry := Authorize(env, failed, t0);
          if !retry.allowed then Refused(failed, retry.reason) else failed.(status := Queued)]
    ensures previous == if next[k].status == Queued
                        then previous0[nodes[k].id := PreviousFailure(nodes[k].attempts, Clip(RetryDetail(o)))]
                        else previous0
    ensures t == t0 + (if MayRetry(env, FailedNode(nodes[k], o), t0) then 1 else 0)
  {
    var failed := MarkFailure(consumed, k, Failed, FailureDetail(o));
    assert failed[k] == FailedNode(nodes[k], o);
    next, t, previous := SettleFailure(env, failed, k, o, t0, previous0);
    assert next == nodes[k := next[k]];
  }

  // ---- The whole wave ----

  /** The first `m` running nodes of the wave are settled, each at its own time; the rest is untouched. */
  ghost predicate SettledUpTo(env: Environment, before: seq<ExecutionNode>, active: seq<nat>, outcomes: seq<Outcome>,
                              limit: Option<string>, m: nat, completions: seq<Completion>, nodes: seq<ExecutionNode>)
    requires m <= |active| == |outcomes|
    requires forall i :: 0 <= i < |active| ==> active[i] < |before|
  {
    && Valid(nodes) && |nodes| == |before| && |completions| == m
    && (forall i :: 0 <= i < m ==>
          SettledAs(env, before[active[i]], outcomes[i], limit, completions[i], nodes[active[i]]))
    && (forall k :: 0 <= k < |nodes| && k !in active[..m] ==> nodes[k] == before[k])
  }

  ghost predicate SettledAs(env: Environment, n: ExecutionNode, o: Outcome, limit: Option<string>, completion: Completion,
                            next: ExecutionNode) {
    next == Settled(env, n, o, limit, completion.at) && completion == Completed(env, n, o, limit, completion.at)
  }

  lemma SettleOneMore(env: Environment, before: seq<ExecutionNode>, active: seq<nat>, outcomes: seq<Outcome>,
                      limit: Option<string>, m: nat, completions: seq<Completion>, nodes: seq<ExecutionNode>, t: nat)
    requires m < |active| == |outcomes| && Increasing(active)
    requires Valid(before) && forall i :: 0 <= i < |active| ==> active[i] < |before| && before[active[i]].status == Running
    requires SettledUpTo(env, before, active, outcomes, limit, m, completions, nodes)
    ensures nodes[active[m]] == before[active[m]]
    ensures SettledUpTo(env, before, active, outcomes, limit, m + 1,
                        completions + [Completed(env, nodes[active[m]], outcomes[m], limit, t)],
                        nodes[active[m] := Settled(env, nodes[active[m]], outcomes[m], limit, t)])
  {
    var k := active[m];
    assert k !in active[..m];
    SettledFacts(env, before[k], outcomes[m], limit, t);
    PointUpdateValid(nodes, k, Settled(env, nodes[k], outcomes[m], limit, t));
    assert active[..m + 1] == active[..m] + [k];
  }

  lemma TimedSnoc(env: Environment, completions: seq<Completion>, t0: nat, c: Completion)
    requires Timed(env, completions, t0) && c.at == EndOf(env, completions, t0)
    ensures Timed(env, completions + [c], t0) && EndOf(env, completions + [c], t0) == Past(env, c)
  {
    var all := completions + [c];
    forall i | 0 <= i < |all| ensures all[i].at == EndOf(env, all[..i], t0) {
      assert all[..i] == completions[..i];
      assert completions[..|completions|] == completions;
    }
  }

  lemma {:induction false} TimesIncrease(env: Environment, completions: seq<Completion>, t0: nat, c: nat, d: nat)
    requires Timed(env, completions, t0) && c <= d < |completions|
    ensures t0 <= completions[c].at
    ensures if c == d then completions[c].at == completions[d].at else completions[c].at < completions[d].at
    decreases d
  {
    if c < d {
      TimesIncrease(env, completions, t0, c, d - 1);
      assert completions[..d][|completions[..d]| - 1] == completions[d - 1];
    } else if d > 0 {
      TimesIncrease(env, completions, t0, d - 1, d - 1);
      assert completions[..d][|completions[..d]| - 1] == completions[d - 1];
    }
  }

  method SettleWave(env: Environment, before: seq<ExecutionNode>, active: seq<nat>, outcomes: seq<Outcome>,
                    limit: Option<string>, t0: nat, previous0: map<string, PreviousFailure>)
    returns (nodes: seq<ExecutionNode>, t: nat, previous: map<string, PreviousFailure>, completions: seq<Completion>)
    requires Valid(before) && |active| == |outcomes| && Increasing(active)
    requires forall i :: 0 <= i < |active| ==> active[i] < |before| && before[active[i]].status == Running
    ensures SettledUpTo(env, before, active, outcomes, limit, |active|, completions, nodes)
    ensures Timed(env, completions, t0) && t == EndOf(env, completions, t0)
    ensures PreviousUpTo(before, active, nodes, |active|, previous0, previous)
  {
    nodes, t, previous, completions := before, t0, previous0, [];
    for i := 0 to |active|
      invariant SettledUpTo(env, before, active, outcomes, limit, i, completions, nodes)
      invariant Timed(env, completions, t0) && t == EndOf(env, completions, t0)
      invariant PreviousUpTo(before, active, nodes, i, previous0, previous)
    {
      nodes, t, previous, completions :=
        SettleMember(env, before, active, outcomes, limit, i, nodes, t, t0, previous, completions, previous0);
    }
  }

  method SettleMember(env: Environment, before: seq<ExecutionNode>, active: seq<nat>, outcomes: seq<Outcome>,
                      limit: Option<string>, i: nat, was: seq<ExecutionNode>, at: nat, ghost t0: nat,
                      wasPrevious: map<string, PreviousFailure>, earlier: seq<Completion>,
                      ghost previous0: map<string, PreviousFailure>)
    returns (nodes: seq<ExecutionNode>, t: nat, previous: map<string, PreviousFailure>, completions: seq<Completion>)
    requires Valid(before) && i < |active| == |outcomes| && Increasing(active)
    requires forall j :: 0 <= j < |active| ==> active[j] < |before| && before[active[j]].status == Running
    requires SettledUpTo(env, before, active, outcomes, limit, i, earlier, was)
    requires Timed(env, earlier, t0) && at == EndOf(env, earlier, t0)
    requires PreviousUpTo(before, active, was, i, previous0, wasPrevious)
    ensures SettledUpTo(env, before, active, outcomes, limit, i + 1, completions, nodes)
    ensures Timed(env, completions, t0) && t == EndOf(env, completions, t0)
    ensures PreviousUpTo(before, active, nodes, i + 1, previous0, previous)
  {
    SettleOneMore(env, before, active, outcomes, limit, i, earlier, was, at);
    SettledFacts(env, before[active[i]], outcomes[i], limit, at);
    var completion;
    nodes, t, previous, completion := SettleOutcome(env, was, active[i], outcomes[i], limit, at, wasPrevious);
    TimedSnoc(env, earlier, t0, completion);
    completions := earlier + [completion];
    PreviousOneMore(before, active, was, i, previous0, wasPrevious, nodes, previous);
  }

  /** Retry contexts after `m` settlements: a node queued again carries the attempt that just
      failed; every other context is the one from before the wave. */
  ghost predicate PreviousUpTo(before: seq<ExecutionNode>, active: seq<nat>, nodes: seq<ExecutionNode>, m: nat,
                               previous0: map<string, PreviousFailure>, previous: map<string, PreviousFailure>)
    requires forall i :: 0 <= i < |active| ==> active[i] < |before|
    requires |nodes| == |before| && m <= |active|
  {
    && (forall i :: 0 <= i < m && nodes[active[i]].status == Queued ==>
          before[active[i]].id in previous && previous[before[active[i]].id].attempt == before[active[i]].attempts)
    && (forall k :: 0 <= k < |before| && (k !in active[..m] || nodes[k].status != Queued) ==>
          (before[k].id in previous <==> before[k].id in previous0)
          && (before[k].id in previous ==> previous[before[k].id] == previous0[before[k].id]))
  }

  lemma PreviousOneMore(before: seq<ExecutionNode>, active: seq<nat>, was: seq<ExecutionNode>, m: nat,
                        previous0: map<string, PreviousFailure>, wasPrevious: map<string, PreviousFailure>,
                        nodes: seq<ExecutionNode>, previous: map<string, PreviousFailure>)
    requires Valid(before) && Increasing(active) && m < |active| && |was| == |before|
    requires forall i :: 0 <= i < |active| ==> active[i] < |before|
    requires PreviousUpTo(before, active, was, m, previous0, wasPrevious)
    requires |nodes| == |before| && forall k :: 0 <= k < |nodes| && k != active[m] ==> nodes[k] == was[k]
    requires var n := before[active[m]];
      if nodes[active[m]].status == Queued
      then n.id in previous && previous == wasPrevious[n.id := previous[n.id]] && previous[n.id].attempt == n.attempts
      else previous == wasPrevious
    ensures PreviousUpTo(before, active, nodes, m + 1, previous0, previous)
  {
    var k := active[m];
    assert k !in active[..m];
    assert active[..m + 1] == active[..m] + [k];
    forall j | 0 <= j < |before| && j != k ensures before[j].id != before[k].id {}
    forall i | 0 <= i < m ensures active[i] != k {}
  }

  // ---- The order in which the calls of a wave end does not matter ----

  lemma {:induction false} LimitStays(calls: seq<Call>, order: seq<nat>, i: nat)
    requires (forall j :: 0 <= j < |order| ==> order[j] < |calls|) && i <= |order|
    ensures FirstLimit(calls, order[..i]).Some? ==> FirstLimit(calls, order) == FirstLimit(calls, order[..i])
    decreases |order|
  {
    if i < |order| {
      LimitStays(calls, order[..|order| - 1], i);
      assert order[..|order| - 1][..i] == order[..i];
    } else {
      assert order[..i] == order;
    }
  }

  /** A call counts as what it resolves to against the limit recorded when it ended; settlement
      makes the same of it as of what it resolves to against the limit known in the end. */
  lemma SameSettlement(env: Environment, n: ExecutionNode, result: RunResult, early: Option<string>, limit: Option<string>, t: nat)
    requires early.Some? ==> limit == early
    requires result.RateLimited? ==> early.Some?
    ensures Settled(env, n, Resolve(result, early), limit, t) == Settled(env, n, Resolve(result, limit), limit, t)
    ensures Completed(env, n, Resolve(result, early), limit, t) == Completed(env, n, Resolve(result, limit), limit, t)
  {
  }

  /** The settlement of a call depends on its own result and on the recorded limit alone. */
  lemma {:induction false} OrderIsIrrelevant(env: Environment, n: ExecutionNode, calls: seq<Call>, order: seq<nat>,
                                             outcomes: seq<Outcome>, c: nat, t: nat)
    requires Partition(order, [], |calls|) && ResolvedUpTo(calls, order, outcomes) && c < |calls|
    ensures var limit, o := FirstLimit(calls, order), Resolve(calls[c].result, FirstLimit(calls, order));
      && Settled(env, n, outcomes[c], limit, t) == Settled(env, n, o, limit, t)
      && Completed(env, n, outcomes[c], limit, t) == Completed(env, n, o, limit, t)
  {
    assert c in order;
    var i :| 0 <= i < |order| && order[i] == c;
    LimitStays(calls, order, i + 1);
    FirstLimitIff(calls, order[..i + 1]);
    assert order[..i + 1][i] == c;
    SameSettlement(env, n, calls[c].result, FirstLimit(calls, order[..i + 1]), FirstLimit(calls, order), t);
  }
}
