/** What an abort changes in a wave: a wave against its counterpart, the wave of the same members in the
    same environment without the abort (execution-node-coordinator.ts:159-182, 387-515). */
module PlanAborts {
  import opened Options
  import opened ExecutionNodes
  import opened PlanBlocking
  import opened PlanWaves
  import opened PlanSettlement
  import opened PlanRuns
  import opened PlanTraces

  function Unaborted(env: Environment): Environment { env.(abortAt := None) }

  /** `u` is what the wave `w` would be if nobody aborted. */
  ghost predicate Counterpart(env: Environment, w: Wave, u: Wave) {
    && Genuine(env, w) && Genuine(Unaborted(env), u)
    && u.before == w.before && u.startAt == w.startAt
    && |u.asks| == |w.asks| && (forall i :: 0 <= i < |w.asks| ==> u.asks[i].pos == w.asks[i].pos)
    && (!env.Aborted(DoneAt(w)) ==> u.limit == w.limit)
  }

  // ---- Nodes the abort does not meet ----

  /** Only members are called. */
  lemma {:induction false} CalledIsAsked(env: Environment, w: Wave, k: nat)
    requires Genuine(env, w)
    ensures Called(w, k) ==> k < |w.before| && AskedAbout(w, k)
  {
    if Called(w, k) {
      var c :| 0 <= c < |w.calls| && w.calls[c].pos == k;
      assert CallGenuine(env, w, c);
    }
  }

  lemma {:induction false} SameAsk(env: Environment, w: Wave, u: Wave, i: nat)
    requires i < |w.asks| == |u.asks| && |w.snapshot| == |w.before| == |u.snapshot| && AskGenuine(env, w, i)
    requires u.before == w.before && u.startAt == w.startAt && AskGenuine(Unaborted(env), u, i)
    requires u.asks[i].pos == w.asks[i].pos && !AbortedStart(env, w, i)
    ensures var k := w.asks[i].pos; u.snapshot[k] == w.snapshot[k] && (Called(w, k) <==> Called(u, k))
  {
    UnabortedAnswers(env, w.before[w.asks[i].pos], w.startAt + i);
  }

  /** A member whose start does not meet the abort is started, or refused, as it would be without. */
  lemma {:induction false} SameStart(env: Environment, w: Wave, u: Wave, k: nat)
    requires Counterpart(env, w, u) && k < |w.before| && AskedAbout(w, k)
    requires forall i: nat :: AbortedStart(env, w, i) ==> w.asks[i].pos != k
    ensures |w.snapshot| == |u.snapshot| == |w.before| && u.snapshot[k] == w.snapshot[k]
    ensures Called(w, k) <==> Called(u, k)
  {
    var i: nat :| i < |w.asks| && w.asks[i].pos == k;
    SameAsk(env, w, u, i);
  }

  /** Nothing happens to a node that is no member. */
  lemma {:induction false} BystanderStays(env: Environment, w: Wave, k: nat)
    requires Genuine(env, w) && k < |w.before| && !AskedAbout(w, k)
    ensures |w.snapshot| == |w.after| == |w.before| && !Called(w, k)
    ensures w.snapshot[k] == w.before[k] && w.after[k] == w.before[k]
  {
    CalledIsAsked(env, w, k);
  }

  lemma SameAsked(w: Wave, u: Wave, k: nat)
    requires |u.asks| == |w.asks| && forall i :: 0 <= i < |w.asks| ==> u.asks[i].pos == w.asks[i].pos
    ensures AskedAbout(w, k) <==> AskedAbout(u, k)
  {
    if i :| 0 <= i < |w.asks| && w.asks[i].pos == k {
      assert u.asks[i].pos == k;
    }
    if i :| 0 <= i < |u.asks| && u.asks[i].pos == k {
      assert w.asks[i].pos == k;
    }
  }

  ghost predicate NoAbortedStart(env: Environment, w: Wave) { forall i: nat :: !AbortedStart(env, w, i) }

  lemma {:induction false} SameSnapshots(env: Environment, w: Wave, u: Wave)
    requires Counterpart(env, w, u) && NoAbortedStart(env, w)
    ensures u.snapshot == w.snapshot && forall k: nat :: Called(w, k) <==> Called(u, k)
  {
    forall k: nat | k < |w.before|
      ensures |w.snapshot| == |u.snapshot| == |w.before| && u.snapshot[k] == w.snapshot[k] && (Called(w, k) <==> Called(u, k))
    {
      SameAsked(w, u, k);
      if AskedAbout(w, k) {
        SameStart(env, w, u, k);
      } else {
        BystanderStays(env, w, k);
        BystanderStays(Unaborted(env), u, k);
      }
    }
    forall k: nat | |w.before| <= k ensures !Called(w, k) && !Called(u, k) {
      CalledIsAsked(env, w, k);
      CalledIsAsked(Unaborted(env), u, k);
    }
  }

  function Positions(w: Wave): (r: seq<nat>)
    ensures |r| == |w.calls| && forall c :: 0 <= c < |r| ==> r[c] == w.calls[c].pos
  {
    seq(|w.calls|, c requires 0 <= c < |w.calls| => w.calls[c].pos)
  }

  lemma {:induction false} PositionsAreCalled(w: Wave, k: nat)
    ensures k in Positions(w) <==> Called(w, k)
  {
    if Called(w, k) {
      var c :| 0 <= c < |w.calls| && w.calls[c].pos == k;
      assert Positions(w)[c] == k;
    }
  }

  lemma {:induction false} SamePositions(env: Environment, w: Wave, u: Wave)
    requires Counterpart(env, w, u) && NoAbortedStart(env, w)
    ensures Positions(w) == Positions(u)
  {
    SameSnapshots(env, w, u);
    forall k: nat ensures k in Positions(w) <==> k in Positions(u) {
      PositionsAreCalled(w, k);
      PositionsAreCalled(u, k);
    }
    IncreasingIsUnique(Positions(w), Positions(u));
  }

  /** Then the same calls are made, and they return the same. */
  lemma {:induction false} SameCalls(env: Environment, w: Wave, u: Wave)
    requires Counterpart(env, w, u) && NoAbortedStart(env, w)
    ensures |u.calls| == |w.calls|
    ensures forall c :: 0 <= c < |w.calls| ==> u.calls[c].pos == w.calls[c].pos && u.calls[c].result == w.calls[c].result
  {
    SamePositions(env, w, u);
    forall c | 0 <= c < |w.calls| ensures u.calls[c].pos == w.calls[c].pos && u.calls[c].result == w.calls[c].result {
      assert Positions(w)[c] == Positions(u)[c];
      assert CallGenuine(env, w, c) && CallGenuine(Unaborted(env), u, c);
    }
  }

  lemma {:induction false} UnmetEarlier(env: Environment, w: Wave, d: nat, c: nat)
    requires Timed(env, w.completions, DoneAt(w)) && d <= c < |w.completions| && !AbortMeets(env, w.completions[c])
    ensures !AbortMeets(env, w.completions[d])
  {
    TimesIncrease(env, w.completions, DoneAt(w), d, c);
  }

  lemma {:induction false} StartsBeforeDone(env: Environment, w: Wave)
    requires !env.Aborted(DoneAt(w))
    ensures NoAbortedStart(env, w)
  {
  }

  /** Up to the first settlement that meets the abort the clocks agree. */
  lemma {:induction false} SameCompletion(env: Environment, w: Wave, u: Wave, c: nat)
    requires Counterpart(env, w, u) && !env.Aborted(DoneAt(w)) && c < |w.completions| && !AbortMeets(env, w.completions[c])
    ensures |u.completions| == |w.completions| && u.completions[c] == w.completions[c]
    decreases c
  {
    StartsBeforeDone(env, w);
    SameSnapshots(env, w, u);
    SameCalls(env, w, u);
    if c > 0 {
      UnmetEarlier(env, w, c - 1, c);
      SameCompletion(env, w, u, c - 1);
    }
    SameTime(env, w, u, c);
    SameAnswers(env, w, u, c);
  }

  lemma {:induction false} SameTime(env: Environment, w: Wave, u: Wave, c: nat)
    requires Timed(env, w.completions, DoneAt(w)) && Timed(Unaborted(env), u.completions, DoneAt(u)) && DoneAt(u) == DoneAt(w)
    requires c < |w.completions| == |u.completions|
    requires c > 0 ==> u.completions[c - 1] == w.completions[c - 1] && !AbortMeets(env, w.completions[c - 1])
    ensures u.completions[c].at == w.completions[c].at
  {
    if c > 0 {
      assert w.completions[..c][|w.completions[..c]| - 1] == w.completions[c - 1];
      assert u.completions[..c][|u.completions[..c]| - 1] == u.completions[c - 1];
    }
  }

  lemma {:induction false} SameAnswers(env: Environment, w: Wave, u: Wave, c: nat)
    requires c < |w.completions| == |u.completions| && c < |w.calls| == |u.calls| && u.snapshot == w.snapshot && u.limit == w.limit
    requires CompletionGenuine(env, w, c) && CompletionGenuine(Unaborted(env), u, c)
    requires u.calls[c].pos == w.calls[c].pos && u.calls[c].result == w.calls[c].result
    requires u.completions[c].at == w.completions[c].at && !AbortMeets(env, w.completions[c])
    ensures u.completions[c] == w.completions[c] && u.after[w.calls[c].pos] == w.after[w.calls[c].pos]
  {
    var k := w.calls[c].pos;
    UnabortedSettlement(env, w.snapshot[k], Resolve(w.calls[c].result, w.limit), w.limit, w.completions[c], w.after[k]);
  }

  /** A node that a settled wave does not let meet the abort ends as it would without it. */
  lemma {:induction false} UnmetSettlesAlike(env: Environment, w: Wave, u: Wave, k: nat)
    requires Counterpart(env, w, u) && !env.Aborted(DoneAt(w)) && k < |w.before| && !AbortBlocks(env, w, k)
    ensures |w.after| == |u.after| == |w.before| && u.after[k] == w.after[k]
  {
    StartsBeforeDone(env, w);
    SameSnapshots(env, w, u);
    SameCalls(env, w, u);
    if Called(w, k) {
      var c: nat :| c < |w.calls| && w.calls[c].pos == k;
      assert !AbortMeets(env, w.completions[c]);
      SameCompletion(env, w, u, c);
      SameAnswers(env, w, u, c);
    }
  }

  /** A member that is not called and whose start does not meet the abort is refused with it or without. */
  lemma {:induction false} UnmetRefusedAlike(env: Environment, w: Wave, u: Wave, k: nat)
    requires Counterpart(env, w, u) && k < |w.before| && !AbortBlocks(env, w, k) && !Called(w, k)
    ensures |w.after| == |u.after| == |w.before| && u.after[k] == w.after[k]
  {
    SameAsked(w, u, k);
    if AskedAbout(w, k) {
      SameStart(env, w, u, k);
    } else {
      BystanderStays(env, w, k);
      BystanderStays(Unaborted(env), u, k);
    }
  }

  // ---- Nodes that differ ----

  lemma {:induction false} CutShortRuns(env: Environment, w: Wave, k: nat)
    requires Genuine(env, w) && env.Aborted(DoneAt(w)) && Called(w, k)
    ensures k < |w.after| && w.after[k].status == Running
  {
    var c :| 0 <= c < |w.calls| && w.calls[c].pos == k;
    assert CallGenuine(env, w, c);
  }

  lemma {:induction false} SettledStops(env: Environment, u: Wave, c: nat)
    requires c < |u.calls| && c < |u.completions| && CompletionGenuine(env, u, c)
    ensures u.calls[c].pos < |u.after| && u.after[u.calls[c].pos].status != Running
  {
  }

  /** Without an abort no member is left running. */
  lemma {:induction false} UnabortedSettles(env: Environment, u: Wave, k: nat)
    requires env.abortAt.None? && Genuine(env, u) && AskedAbout(u, k)
    ensures k < |u.after| && u.after[k].status != Running
  {
    if Called(u, k) {
      var c: nat :| c < |u.calls| && u.calls[c].pos == k;
      SettledStops(env, u, c);
    } else {
      UncalledIsRefused(env, u, k);
    }
  }

  lemma {:induction false} UncalledIsRefused(env: Environment, w: Wave, k: nat)
    requires Genuine(env, w) && AskedAbout(w, k) && !Called(w, k)
    ensures k < |w.after| && w.after[k].status == Blocked
  {
    var i :| 0 <= i < |w.asks| && w.asks[i].pos == k;
    assert AskGenuine(env, w, i);
  }

  lemma {:induction false} CutShortDiffers(env: Environment, w: Wave, u: Wave)
    requires Counterpart(env, w, u) && env.Aborted(DoneAt(w)) && w.calls != []
    ensures w.after != u.after
  {
    var k := w.calls[0].pos;
    assert CallGenuine(env, w, 0);
    assert Called(w, k);
    CutShortRuns(env, w, k);
    SameAsked(w, u, k);
    UnabortedSettles(Unaborted(env), u, k);
  }

  /** The abort meets node `k`, which would end otherwise without it. */
  ghost predicate Changes(env: Environment, w: Wave, u: Wave, k: nat) {
    AbortBlocks(env, w, k) && k < |w.after| && (k < |u.after| ==> u.after[k] != w.after[k])
  }

  /** The abort changes what a wave leaves behind exactly when it cuts short a wave that made calls, or
      meets a node that would end otherwise without it. */
  lemma {:induction false} AbortChangesIff(env: Environment, w: Wave, u: Wave)
    requires Counterpart(env, w, u)
    ensures w.after != u.after <==> (env.Aborted(DoneAt(w)) && w.calls != []) || exists k: nat :: Changes(env, w, u, k)
  {
    if env.Aborted(DoneAt(w)) && w.calls != [] {
      CutShortDiffers(env, w, u);
    } else if w.after != u.after {
      var k: nat :| k < |w.after| && w.after[k] != u.after[k];
      if !AbortBlocks(env, w, k) {
        if env.Aborted(DoneAt(w)) {
          UnmetRefusedAlike(env, w, u, k);
        } else {
          UnmetSettlesAlike(env, w, u, k);
        }
      }
      assert Changes(env, w, u, k);
    }
  }

  /** The abort is why a node ends blocked exactly when it meets the node and the node would not end
      blocked without it. */
  lemma {:induction false} AbortBlameIff(env: Environment, w: Wave, u: Wave, k: nat)
    requires Counterpart(env, w, u) && k < |w.before|
    ensures |w.after| == |u.after| == |w.before|
    ensures w.after[k].status == Blocked && u.after[k].status != Blocked <==> AbortBlocks(env, w, k) && u.after[k].status != Blocked
  {
    if AbortBlocks(env, w, k) {
      AbortedIsBlocked(env, w, k);
    } else if !env.Aborted(DoneAt(w)) {
      UnmetSettlesAlike(env, w, u, k);
    } else if Called(w, k) {
      CutShortRuns(env, w, k);
    } else {
      UnmetRefusedAlike(env, w, u, k);
    }
  }
}
