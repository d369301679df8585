/** The record of a run against its environment: every answer and every result in it is what the
    environment gave at that time, and the waves follow one another from the recovered plan on. On
    such a record the effect of an abort is decided by its time
    (execution-node-coordinator.ts:159-182, 358-516). */
module PlanTraces {
  import opened Options
  import opened ExecutionNodes
  import opened PlanBlocking
  import opened PlanWaves
  import opened PlanSettlement
  import opened PlanRuns

  // ---- One wave ----

  /** The start of a member: asked in its turn, answered by the environment, and run exactly when
      it was authorized. */
  ghost predicate AskGenuine(env: Environment, w: Wave, i: nat)
    requires i < |w.asks| && |w.snapshot| == |w.before|
  {
    var k := w.asks[i].pos;
    && k < |w.before| && Ready(w.before, k)
    && w.asks[i] == Ask(k, w.before[k].attempts + 1, Authorize(env, w.before[k], w.startAt + i).allowed)
    && w.snapshot[k] == Started(env, w.before[k], w.startAt + i)
    && (w.asks[i].allowed <==> Called(w, k))
  }

  ghost predicate AskedAbout(w: Wave, k: nat) { exists i :: 0 <= i < |w.asks| && w.asks[i].pos == k }

  ghost predicate StartsGenuine(env: Environment, w: Wave) {
    && |w.snapshot| == |w.before|
    && (forall i :: 0 <= i < |w.asks| ==> AskGenuine(env, w, i))
    && (forall k :: 0 <= k < |w.before| && !AskedAbout(w, k) ==> w.snapshot[k] == w.before[k])
  }

  /** A call is made on a running member of the wave with the result `runNode` gives. */
  ghost predicate CallGenuine(env: Environment, w: Wave, c: nat)
    requires c < |w.calls|
  {
    var call := w.calls[c];
    && call.pos < |w.snapshot| && w.snapshot[call.pos].status == Running && AskedAbout(w, call.pos)
    && call.id == w.snapshot[call.pos].id && call.attempt == w.snapshot[call.pos].attempts
    && call.result == env.run(RunAt(w) + c)
  }

  /** The calls are issued in plan order. */
  ghost predicate CallsGenuine(env: Environment, w: Wave) {
    && (forall c :: 0 <= c < |w.calls| ==> CallGenuine(env, w, c))
    && (forall c, d :: 0 <= c < d < |w.calls| ==> w.calls[c].pos < w.calls[d].pos)
  }

  /** The limit is that of a call that was rate limited, and there is one if any call was. */
  ghost predicate LimitGenuine(w: Wave) {
    && (w.limit.None? ==> forall c :: 0 <= c < |w.calls| ==> !w.calls[c].result.RateLimited?)
    && (w.limit.Some? ==> exists c :: 0 <= c < |w.calls| && LimitOf(w.calls[c], w.limit.value))
  }

  ghost predicate LimitOf(call: Call, reason: string) {
    call.result.RateLimited? && reason == LimitReason(call.result.code)
  }

  /** A call is settled from its own result, with the answers given at its own time. */
  ghost predicate CompletionGenuine(env: Environment, w: Wave, c: nat)
    requires c < |w.calls| && c < |w.completions|
  {
    var k := w.calls[c].pos;
    && k < |w.snapshot| == |w.after|
    && SettledAs(env, w.snapshot[k], Resolve(w.calls[c].result, w.limit), w.limit, w.completions[c], w.after[k])
  }

  /** Unless the caller has aborted by the time the last call ended, every call is settled, one
      after the other; if he has, none is. Nothing else changes. */
  ghost predicate SettlementGenuine(env: Environment, w: Wave) {
    && |w.after| == |w.snapshot|
    && |w.completions| == (if env.Aborted(DoneAt(w)) then 0 else |w.calls|)
    && Timed(env, w.completions, DoneAt(w))
    && (forall c :: 0 <= c < |w.completions| ==> CompletionGenuine(env, w, c))
    && (forall k :: 0 <= k < |w.after| && (w.completions == [] || !Called(w, k)) ==> w.after[k] == w.snapshot[k])
  }

  /** The whole wave is what the environment made of it. */
  ghost predicate Genuine(env: Environment, w: Wave) {
    StartsGenuine(env, w) && CallsGenuine(env, w) && LimitGenuine(w) && SettlementGenuine(env, w)
  }

  function EndAt(env: Environment, w: Wave): nat { EndOf(env, w.completions, DoneAt(w)) }

  /** What launching and settling establish is what makes a record genuine. */
  lemma {:induction false} StartedAsk(env: Environment, wave: seq<nat>, w: Wave, answers: seq<Authorization>, i: nat)
    requires AllReady(w.before, wave) && |answers| == |wave| && i < |wave|
    requires StartedWith(w.before, wave, |wave|, answers, w.snapshot, w.asks)
    requires wave[i] < |w.before| && answers[i] == Authorize(env, w.before[wave[i]], w.startAt + i)
    requires wave[i] < |w.snapshot| && (Called(w, wave[i]) <==> w.snapshot[wave[i]].status == Running)
    ensures AskGenuine(env, w, i) && w.asks[i].pos == wave[i]
  {
    AskAnswered(w.before, wave, answers, w, i);
    AnsweredGenuinely(env, w, i, wave[i], answers[i]);
  }

  lemma {:induction false} AnsweredGenuinely(env: Environment, w: Wave, i: nat, k: nat, answer: Authorization)
    requires i < |w.asks| && k < |w.before| == |w.snapshot| && Ready(w.before, k)
    requires answer == Authorize(env, w.before[k], w.startAt + i) && w.snapshot[k] == Answered(w.before[k], answer)
    requires w.asks[i] == Ask(k, w.before[k].attempts + 1, answer.allowed)
    requires Called(w, k) <==> w.snapshot[k].status == Running
    ensures AskGenuine(env, w, i)
  {
  }

  lemma {:induction false} LaunchedRuns(env: Environment, wave: seq<nat>, w: Wave, active: seq<nat>,
                                        previous: map<string, PreviousFailure>, k: nat)
    requires Launched(env, w.before, wave, w.startAt, w, active, previous, RunAt(w)) && k in wave
    ensures k < |w.snapshot| && (Called(w, k) <==> w.snapshot[k].status == Running)
  {
    CalledExactly(env, w.snapshot, active, previous, RunAt(w), w);
    var i :| 0 <= i < |wave| && wave[i] == k;
    assert Ready(w.before, wave[i]);
  }

  lemma {:induction false} AskAnswered(before: seq<ExecutionNode>, wave: seq<nat>, answers: seq<Authorization>, w: Wave, i: nat)
    requires AllReady(before, wave) && |answers| == |wave| && i < |wave|
    requires StartedWith(before, wave, |wave|, answers, w.snapshot, w.asks)
    ensures wave[i] < |before| && Ready(before, wave[i]) && w.snapshot[wave[i]] == Answered(before[wave[i]], answers[i])
    ensures w.asks[i] == Ask(wave[i], before[wave[i]].attempts + 1, answers[i].allowed)
    ensures w.snapshot[wave[i]].status == Running <==> w.asks[i].allowed
  {
  }

  lemma {:induction false} AnsweredStarts(env: Environment, wave: seq<nat>, w: Wave, answers: seq<Authorization>)
    requires AllReady(w.before, wave) && |answers| == |wave|
    requires StartedWith(w.before, wave, |wave|, answers, w.snapshot, w.asks)
    requires forall i :: 0 <= i < |wave| ==> answers[i] == Authorize(env, w.before[wave[i]], w.startAt + i)
    requires forall k :: k in wave ==> k < |w.snapshot| && (Called(w, k) <==> w.snapshot[k].status == Running)
    ensures StartsGenuine(env, w)
  {
    forall i | 0 <= i < |w.asks| ensures AskGenuine(env, w, i) && w.asks[i].pos == wave[i] {
      assert wave[i] in wave;
      StartedAsk(env, wave, w, answers, i);
    }
    assert wave[..|wave|] == wave;
    forall k | k in wave ensures AskedAbout(w, k) {
      var i :| 0 <= i < |wave| && wave[i] == k;
      assert w.asks[i].pos == k;
    }
  }

  lemma {:induction false} LaunchedStarts(env: Environment, wave: seq<nat>, w: Wave, active: seq<nat>,
                                          previous: map<string, PreviousFailure>)
    requires Launched(env, w.before, wave, w.startAt, w, active, previous, RunAt(w))
    ensures StartsGenuine(env, w)
  {
    MembersRun(env, wave, w, active, previous);
    MembersAnswered(env, wave, w);
  }

  lemma {:induction false} MembersRun(env: Environment, wave: seq<nat>, w: Wave, active: seq<nat>,
                                      previous: map<string, PreviousFailure>)
    requires Launched(env, w.before, wave, w.startAt, w, active, previous, RunAt(w))
    ensures forall k :: k in wave ==> k < |w.snapshot| && (Called(w, k) <==> w.snapshot[k].status == Running)
  {
    forall k | k in wave ensures k < |w.snapshot| && (Called(w, k) <==> w.snapshot[k].status == Running) {
      LaunchedRuns(env, wave, w, active, previous, k);
    }
  }

  lemma {:induction false} MembersAnswered(env: Environment, wave: seq<nat>, w: Wave)
    requires AllReady(w.before, wave) && StartedUpTo(env, w.before, wave, |wave|, w.startAt, w.snapshot, w.asks)
    requires forall k :: k in wave ==> k < |w.snapshot| && (Called(w, k) <==> w.snapshot[k].status == Running)
    ensures StartsGenuine(env, w)
  {
    var answers := Authorizations(env, w.before, wave, w.startAt);
    assert StartedWith(w.before, wave, |wave|, answers, w.snapshot, w.asks);
    forall i | 0 <= i < |wave| ensures answers[i] == Authorize(env, w.before[wave[i]], w.startAt + i) {}
    AnsweredStarts(env, wave, w, answers);
  }

  lemma {:induction false} IssuedCall(env: Environment, w: Wave, active: seq<nat>, previous: map<string, PreviousFailure>, c: nat)
    requires (forall i :: 0 <= i < |active| ==> active[i] < |w.snapshot|) && c < |active|
    requires w.calls == CallsOf(env, w.snapshot, active, previous, RunAt(w)) && w.snapshot[active[c]].status == Running
    requires AskedAbout(w, active[c])
    ensures CallGenuine(env, w, c) && w.calls[c].pos == active[c]
  {
  }

  lemma {:induction false} LaunchedCalls(env: Environment, wave: seq<nat>, w: Wave, active: seq<nat>,
                                         previous: map<string, PreviousFailure>)
    requires Launched(env, w.before, wave, w.startAt, w, active, previous, RunAt(w))
    ensures CallsGenuine(env, w)
  {
    RunningIncreases(w.snapshot, wave);
    ActiveRuns(w.snapshot, wave);
    MembersAsked(w, wave, active);
    IssuedCalls(env, w, active, previous);
  }

  lemma {:induction false} MembersAsked(w: Wave, wave: seq<nat>, active: seq<nat>)
    requires |w.asks| == |wave| && forall i :: 0 <= i < |wave| ==> w.asks[i].pos == wave[i]
    requires forall c :: 0 <= c < |active| ==> active[c] in wave
    ensures forall c :: 0 <= c < |active| ==> AskedAbout(w, active[c])
  {
    forall c | 0 <= c < |active| ensures AskedAbout(w, active[c]) {
      var i :| 0 <= i < |wave| && wave[i] == active[c];
      assert w.asks[i].pos == active[c];
    }
  }

  lemma {:induction false} ActiveRuns(snapshot: seq<ExecutionNode>, wave: seq<nat>)
    requires forall i :: 0 <= i < |wave| ==> wave[i] < |snapshot|
    ensures var active := RunningAmong(snapshot, wave);
      forall c :: 0 <= c < |active| ==> active[c] < |snapshot| && snapshot[active[c]].status == Running
  {
    var active := RunningAmong(snapshot, wave);
    forall c | 0 <= c < |active| ensures snapshot[active[c]].status == Running {
      assert active[c] in active;
    }
  }

  lemma {:induction false} IssuedCalls(env: Environment, w: Wave, active: seq<nat>, previous: map<string, PreviousFailure>)
    requires forall i :: 0 <= i < |active| ==>
      active[i] < |w.snapshot| && w.snapshot[active[i]].status == Running && AskedAbout(w, active[i])
    requires w.calls == CallsOf(env, w.snapshot, active, previous, RunAt(w)) && Increasing(active)
    ensures CallsGenuine(env, w)
  {
    forall c | 0 <= c < |w.calls| ensures CallGenuine(env, w, c) && w.calls[c].pos == active[c] {
      IssuedCall(env, w, active, previous, c);
    }
  }

  lemma RecordedLimit(w: Wave, order: seq<nat>)
    requires Partition(order, [], |w.calls|) && w.limit == FirstLimit(w.calls, order)
    ensures LimitGenuine(w)
  {
    FirstLimitIff(w.calls, order);
    if w.limit.None? {
      forall c | 0 <= c < |w.calls| ensures !w.calls[c].result.RateLimited? {
        assert c in order;
      }
    } else {
      var c := LimitSource(w.calls, order);
    }
  }

  lemma {:induction false} LimitSource(calls: seq<Call>, order: seq<nat>) returns (c: nat)
    requires (forall i :: 0 <= i < |order| ==> order[i] < |calls|) && FirstLimit(calls, order).Some?
    ensures c < |calls| && LimitOf(calls[c], FirstLimit(calls, order).value)
    decreases |order|
  {
    var earlier := order[..|order| - 1];
    if FirstLimit(calls, earlier).Some? {
      c := LimitSource(calls, earlier);
    } else {
      c := order[|order| - 1];
    }
  }

  lemma SettledCompletion(env: Environment, w: Wave, active: seq<nat>, order: seq<nat>, outcomes: seq<Outcome>, c: nat)
    requires |active| == |outcomes| == |w.calls| && c < |active|
    requires forall i :: 0 <= i < |active| ==> active[i] < |w.snapshot| && w.calls[i].pos == active[i]
    requires Partition(order, [], |w.calls|) && ResolvedUpTo(w.calls, order, outcomes) && w.limit == FirstLimit(w.calls, order)
    requires SettledUpTo(env, w.snapshot, active, outcomes, w.limit, |active|, w.completions, w.after)
    ensures CompletionGenuine(env, w, c)
  {
    OrderIsIrrelevant(env, w.snapshot[active[c]], w.calls, order, outcomes, c, w.completions[c].at);
    assert SettledAs(env, w.snapshot[active[c]], outcomes[c], w.limit, w.completions[c], w.after[active[c]]);
  }

  lemma SettledGenuinely(env: Environment, w: Wave, active: seq<nat>, order: seq<nat>, outcomes: seq<Outcome>)
    requires |active| == |outcomes| == |w.calls| && !env.Aborted(DoneAt(w))
    requires forall i :: 0 <= i < |active| ==> active[i] < |w.snapshot| && w.calls[i].pos == active[i]
    requires Partition(order, [], |w.calls|) && ResolvedUpTo(w.calls, order, outcomes) && w.limit == FirstLimit(w.calls, order)
    requires SettledUpTo(env, w.snapshot, active, outcomes, w.limit, |active|, w.completions, w.after)
    requires Timed(env, w.completions, DoneAt(w))
    ensures SettlementGenuine(env, w)
  {
    forall c | 0 <= c < |w.completions| ensures CompletionGenuine(env, w, c) {
      SettledCompletion(env, w, active, order, outcomes, c);
    }
    assert active[..|active|] == active;
    forall k | k in active ensures Called(w, k) && w.completions != [] {
      var i :| 0 <= i < |active| && active[i] == k;
      assert w.calls[i].pos == k;
    }
  }

  // ---- The run ----

  /** The wave asked for exactly these nodes, in this order. */
  ghost predicate AskedFor(w: Wave, wave: seq<nat>) {
    |w.asks| == |wave| && forall i :: 0 <= i < |wave| ==> w.asks[i].pos == wave[i]
  }

  /** The wave takes as many of the nodes that may start as the cap allows, the first in plan order. */
  ghost predicate TakesFirst(before: seq<ExecutionNode>, cap: nat, w: Wave) {
    forall ks :: ChoiceUpTo(before, ks, |before|) ==> AskedFor(w, if |ks| > cap then ks[..cap] else ks)
  }

  ghost function RecoveredPlan(initial: seq<ExecutionNode>): seq<ExecutionNode> {
    seq(|initial|, k requires 0 <= k < |initial| => Recovered(initial[k]))
  }

  /** The plan and the clock at the end of the first `w` waves. */
  ghost function LeftBy(initial: seq<ExecutionNode>, waves: seq<Wave>, w: nat): seq<ExecutionNode>
    requires w <= |waves|
  {
    if w == 0 then RecoveredPlan(initial) else waves[w - 1].after
  }

  function ClockAfter(env: Environment, waves: seq<Wave>, w: nat): nat
    requires w <= |waves|
  {
    if w == 0 then 0 else EndAt(env, waves[w - 1])
  }

  /** The nodes a rate limit stops. */
  ghost predicate RateLimitBlocks(left: seq<ExecutionNode>, reason: string, head: seq<ExecutionNode>) {
    && |head| == |left|
    && forall k :: 0 <= k < |head| ==>
         head[k] == if left[k].status == Queued then WithFailure(left[k].(status := Blocked), Blocked, reason) else left[k]
  }

  /** The plan at the head of an iteration. */
  ghost predicate HeadOf(left: seq<ExecutionNode>, limit: Option<string>, head: seq<ExecutionNode>) {
    if limit.Some? then RateLimitBlocks(left, limit.value, head) else BlockedExactly(left, head)
  }

  function LimitAfter(waves: seq<Wave>): Option<string> {
    if waves == [] then None else waves[|waves| - 1].limit
  }

  /** The caller had aborted when the calls of the last wave had ended. */
  predicate CutShort(env: Environment, waves: seq<Wave>) {
    waves != [] && env.Aborted(DoneAt(waves[|waves| - 1]))
  }

  /** A wave starts where the wave before left the plan and the clock, on the exact blocking of that
      plan, before any abort, with the first nodes of the one choice of runnable nodes. */
  ghost predicate WaveInRun(env: Environment, initial: seq<ExecutionNode>, waves: seq<Wave>, cap: nat, w: nat)
    requires w < |waves|
  {
    && Genuine(env, waves[w]) && TakesFirst(waves[w].before, cap, waves[w])
    && waves[w].startAt == ClockAfter(env, waves, w) && !env.Aborted(waves[w].startAt)
    && BlockedExactly(LeftBy(initial, waves, w), waves[w].before)
    && (w + 1 < |waves| ==> !env.Aborted(DoneAt(waves[w])) && waves[w].limit.None?)
  }

  ghost predicate Chained(env: Environment, initial: seq<ExecutionNode>, waves: seq<Wave>, cap: nat) {
    forall w :: 0 <= w < |waves| ==> WaveInRun(env, initial, waves, cap, w)
  }

  lemma ChainedSnoc(env: Environment, initial: seq<ExecutionNode>, waves: seq<Wave>, cap: nat, w: Wave)
    requires Chained(env, initial, waves, cap) && Genuine(env, w) && TakesFirst(w.before, cap, w)
    requires w.startAt == ClockAfter(env, waves, |waves|) && !env.Aborted(w.startAt)
    requires BlockedExactly(LeftBy(initial, waves, |waves|), w.before)
    requires !CutShort(env, waves) && LimitAfter(waves).None?
    ensures Chained(env, initial, waves + [w], cap)
    ensures LeftBy(initial, waves + [w], |waves| + 1) == w.after && ClockAfter(env, waves + [w], |waves| + 1) == EndAt(env, w)
    ensures LimitAfter(waves + [w]) == w.limit
    ensures CutShort(env, waves + [w]) <==> env.Aborted(DoneAt(w))
  {
    var all := waves + [w];
    forall v | 0 <= v < |all| ensures WaveInRun(env, initial, all, cap, v) {
      assert all[..v] == waves[..v];
      if v < |waves| {
        assert WaveInRun(env, initial, waves, cap, v);
        assert all[v] == waves[v];
      }
    }
  }

  // ---- Aborts ----

  ghost predicate AbortedStart(env: Environment, w: Wave, i: nat) { i < |w.asks| && env.Aborted(w.startAt + i) }

  /** The abort blocks node `k`: it was seen when the start or the completion of the node was to be
      authorized, or when the node, having failed with attempts left, was to be queued again. */
  ghost predicate AbortBlocks(env: Environment, w: Wave, k: nat) {
    || (exists i: nat :: AbortedStart(env, w, i) && w.asks[i].pos == k)
    || (exists c :: 0 <= c < |w.completions| && c < |w.calls| && w.calls[c].pos == k && AbortMeets(env, w.completions[c]))
  }

  ghost predicate AbortMeets(env: Environment, c: Completion) {
    env.Aborted(c.at) || (c.retry.Some? && env.Aborted(c.at + 1))
  }

  /** When the abort signal is last consulted in a wave. */
  function LastCheck(w: Wave): nat {
    if w.completions == [] then DoneAt(w)
    else
      var c := w.completions[|w.completions| - 1];
      if c.retry.Some? then c.at + 1 else c.at
  }

  /** After the first start authorization and before the runs, or after the runs and no later than
      the last time the signal is consulted. */
  predicate HarmfulAt(w: Wave, a: nat) { w.startAt < a < RunAt(w) || DoneAt(w) < a <= LastCheck(w) }

  lemma AbortedStartBlocks(env: Environment, w: Wave, i: nat)
    requires Genuine(env, w) && AbortedStart(env, w, i)
    ensures w.asks[i].pos < |w.after| && w.after[w.asks[i].pos].status == Blocked
  {
    assert AskGenuine(env, w, i);
  }

  lemma AbortedCompletionBlocks(env: Environment, w: Wave, c: nat)
    requires Genuine(env, w) && c < |w.completions| && AbortMeets(env, w.completions[c])
    ensures c < |w.calls| && w.calls[c].pos < |w.after| && w.after[w.calls[c].pos].status == Blocked
  {
    assert CompletionGenuine(env, w, c);
  }

  /** A node the abort blocks ends the wave blocked. */
  lemma AbortedIsBlocked(env: Environment, w: Wave, k: nat)
    requires Genuine(env, w) && AbortBlocks(env, w, k)
    ensures k < |w.after| && w.after[k].status == Blocked
  {
    if i: nat :| AbortedStart(env, w, i) && w.asks[i].pos == k {
      AbortedStartBlocks(env, w, i);
    } else {
      var c :| 0 <= c < |w.completions| && c < |w.calls| && w.calls[c].pos == k && AbortMeets(env, w.completions[c]);
      AbortedCompletionBlocks(env, w, c);
    }
  }

  lemma MeetsLate(env: Environment, w: Wave, c: nat)
    requires SettlementGenuine(env, w) && c < |w.completions| && AbortMeets(env, w.completions[c])
    ensures env.abortAt.Some? && DoneAt(w) < env.abortAt.value <= LastCheck(w)
  {
    TimesIncrease(env, w.completions, DoneAt(w), c, |w.completions| - 1);
  }

  lemma HarmfulBlocks(env: Environment, w: Wave) returns (k: nat)
    requires SettlementGenuine(env, w) && env.abortAt.Some? && HarmfulAt(w, env.abortAt.value)
    ensures AbortBlocks(env, w, k)
  {
    var a := env.abortAt.value;
    if w.startAt < a < RunAt(w) {
      var i := a - w.startAt;
      assert AbortedStart(env, w, i);
      k := w.asks[i].pos;
    } else {
      var c: nat := |w.completions| - 1;
      assert AbortMeets(env, w.completions[c]);
      k := w.calls[c].pos;
    }
  }

  lemma BlocksHarmfully(env: Environment, w: Wave, k: nat)
    requires SettlementGenuine(env, w) && !env.Aborted(w.startAt) && AbortBlocks(env, w, k)
    ensures env.abortAt.Some? && HarmfulAt(w, env.abortAt.value)
  {
    if c :| 0 <= c < |w.completions| && c < |w.calls| && w.calls[c].pos == k && AbortMeets(env, w.completions[c]) {
      MeetsLate(env, w, c);
    }
  }

  /** In a wave that starts before the abort, the abort blocks some node exactly when it comes after
      the first start authorization and before the runs, or during the settlement. */
  lemma AbortBlocksIff(env: Environment, w: Wave)
    requires Genuine(env, w) && !env.Aborted(w.startAt)
    ensures (exists k :: AbortBlocks(env, w, k)) <==> env.abortAt.Some? && HarmfulAt(w, env.abortAt.value)
  {
    if k :| AbortBlocks(env, w, k) {
      BlocksHarmfully(env, w, k);
    }
    if env.abortAt.Some? && HarmfulAt(w, env.abortAt.value) {
      var k := HarmfulBlocks(env, w);
    }
  }

  lemma UnabortedAnswers(env: Environment, n: ExecutionNode, t: nat)
    requires !env.Aborted(t)
    ensures Authorize(env, n, t) == Authorize(env.(abortAt := None), n, t)
  {
  }

  lemma UnabortedSettlement(env: Environment, n: ExecutionNode, o: Outcome, limit: Option<string>, c: Completion, next: ExecutionNode)
    requires SettledAs(env, n, o, limit, c, next) && !AbortMeets(env, c)
    ensures SettledAs(env.(abortAt := None), n, o, limit, c, next) && Past(env, c) == Past(env.(abortAt := None), c)
  {
    UnabortedAnswers(env, n, c.at);
    if Authorize(env, n, c.at).allowed && Fails(o, limit) && HasAttemptsLeft(FailedNode(n, o)) {
      UnabortedAnswers(env, FailedNode(n, o), c.at + 1);
    }
  }

  lemma UnabortedTimes(env: Environment, completions: seq<Completion>, t0: nat)
    requires Timed(env, completions, t0)
    requires forall c :: 0 <= c < |completions| ==> Past(env, completions[c]) == Past(env.(abortAt := None), completions[c])
    ensures Timed(env.(abortAt := None), completions, t0)
  {
    forall i | 0 <= i < |completions| ensures completions[i].at == EndOf(env.(abortAt := None), completions[..i], t0) {
      if i > 0 {
        assert completions[..i][|completions[..i]| - 1] == completions[i - 1];
      }
    }
  }

  lemma UnabortedAsk(env: Environment, w: Wave, i: nat)
    requires i < |w.asks| && |w.snapshot| == |w.before| && AskGenuine(env, w, i) && !AbortedStart(env, w, i)
    ensures AskGenuine(env.(abortAt := None), w, i)
  {
    UnabortedAnswers(env, w.before[w.asks[i].pos], w.startAt + i);
  }

  lemma UnabortedStarts(env: Environment, w: Wave)
    requires StartsGenuine(env, w) && forall i: nat :: !AbortedStart(env, w, i)
    ensures StartsGenuine(env.(abortAt := None), w)
  {
    forall i | 0 <= i < |w.asks| ensures AskGenuine(env.(abortAt := None), w, i) {
      UnabortedAsk(env, w, i);
    }
  }

  lemma UnabortedCalls(env: Environment, w: Wave)
    requires CallsGenuine(env, w)
    ensures CallsGenuine(env.(abortAt := None), w)
  {
    forall c | 0 <= c < |w.calls| ensures CallGenuine(env.(abortAt := None), w, c) {
      assert CallGenuine(env, w, c);
    }
  }

  lemma UnabortedSettlements(env: Environment, w: Wave)
    requires SettlementGenuine(env, w) && !env.Aborted(DoneAt(w))
    requires forall c :: 0 <= c < |w.completions| ==> !AbortMeets(env, w.completions[c])
    ensures SettlementGenuine(env.(abortAt := None), w)
  {
    forall c | 0 <= c < |w.completions|
      ensures CompletionGenuine(env.(abortAt := None), w, c)
      ensures Past(env, w.completions[c]) == Past(env.(abortAt := None), w.completions[c])
    {
      assert CompletionGenuine(env, w, c);
      var k := w.calls[c].pos;
      UnabortedSettlement(env, w.snapshot[k], Resolve(w.calls[c].result, w.limit), w.limit, w.completions[c], w.after[k]);
    }
    UnabortedTimes(env, w.completions, DoneAt(w));
  }

  lemma AbortedStartIsBlock(env: Environment, w: Wave, i: nat)
    ensures AbortedStart(env, w, i) ==> exists k :: AbortBlocks(env, w, k)
  {
    if AbortedStart(env, w, i) {
      assert AbortBlocks(env, w, w.asks[i].pos);
    }
  }

  /** A settled wave in which the abort blocks nobody is the wave of an environment without abort. */
  lemma HarmlessAbort(env: Environment, w: Wave)
    requires Genuine(env, w) && !env.Aborted(DoneAt(w)) && forall k :: !AbortBlocks(env, w, k)
    ensures Genuine(env.(abortAt := None), w)
  {
    forall i: nat ensures !AbortedStart(env, w, i) {
      AbortedStartIsBlock(env, w, i);
    }
    forall c | 0 <= c < |w.completions| ensures !AbortMeets(env, w.completions[c]) {
      assert !AbortBlocks(env, w, w.calls[c].pos);
    }
    UnabortedStarts(env, w);
    UnabortedCalls(env, w);
    UnabortedSettlements(env, w);
  }

  function TwoQueuedNodes(): seq<ExecutionNode> {
    [ExecutionNode("a", Queued, [], {}, false, 0, 0, None, None), ExecutionNode("b", Queued, [], {}, false, 0, 0, None, None)]
  }

  function AbortingAt(a: nat): Environment {
    Environment(false, _ => Allow, _ => Returned(Outcome(Passed, None, None)), _ => 0, Some(a))
  }

  /** An abort between two start authorizations: one node is left running and the other, which never
      ran, is blocked. */
  lemma AbortDuringStarts() returns (w: Wave)
    ensures Genuine(AbortingAt(1), w) && w.startAt == 0 && w.before == TwoQueuedNodes()
    ensures w.after[0].status == Running
    ensures w.after[1].status == Blocked && w.after[1].attempts == 0
  {
    var env, before := AbortingAt(1), TwoQueuedNodes();
    var snapshot := [Started(env, before[0], 0), Started(env, before[1], 1)];
    var call := Call(0, "a", 1, None, env.run(2));
    w := Wave(before, 0, [Ask(0, 1, true), Ask(1, 1, false)], snapshot, [call], None, [], snapshot);
    assert w.calls[0].pos == 0;
    assert AskGenuine(env, w, 0) && AskGenuine(env, w, 1);
  }

  /** An abort during the settlement of two runs that both returned `passed`: one of them is blocked. */
  lemma AbortDuringSettlement() returns (w: Wave)
    ensures Genuine(AbortingAt(5), w) && w.startAt == 0 && w.before == TwoQueuedNodes()
    ensures |w.calls| == 2 && forall c :: 0 <= c < 2 ==> w.calls[c].result == Returned(Outcome(Passed, None, None))
    ensures w.after[0].status == Passed
    ensures w.after[1].status == Blocked && w.after[1].attempts == 1
  {
    var env, before := AbortingAt(5), TwoQueuedNodes();
    var snapshot := [Started(env, before[0], 0), Started(env, before[1], 1)];
    var o := Outcome(Passed, None, None);
    var calls := [Call(0, "a", 1, None, env.run(2)), Call(1, "b", 1, None, env.run(3))];
    var completions := [Completed(env, snapshot[0], o, None, 4), Completed(env, snapshot[1], o, None, 5)];
    var after := [Settled(env, snapshot[0], o, None, 4), Settled(env, snapshot[1], o, None, 5)];
    w := Wave(before, 0, [Ask(0, 1, true), Ask(1, 1, true)], snapshot, calls, None, completions, after);
    assert w.calls[0].pos == 0 && w.calls[1].pos == 1;
    assert AskGenuine(env, w, 0) && AskGenuine(env, w, 1);
    assert completions[..1] == [completions[0]];
    assert CompletionGenuine(env, w, 0) && CompletionGenuine(env, w, 1);
  }
}
