/** Every run of the coalescing refresh, with its file system: no request is lost, and when nothing
    throws the module follows the files (mockupPreviewPlugin.ts:79-111). */
module RefreshRuns {
  import opened Options
  import opened RefreshSteps

  /** `history[t]` is the text the files call for at time t; the last entry is now. A discovery that
      began at `begunAt` answers with the text of some moment since. `writes` counts the writes and
      `chainWrites` those before the outermost call in progress. */
  datatype State = State(
    flags: Flags, history: seq<string>, begunAt: nat, requestedAt: Option<nat>, completed: Option<nat>, seenAt: nat,
    requests: nat, begun: nat, writes: nat, chainWrites: nat)

  datatype Event =
    | FilesChange(text: string)
    | Call
    | Discovered(seen: nat, writeThrows: bool)
    | DiscoveryThrows

  ghost predicate Initial(s: State) {
    && s.history != [] && s == State(IDLE, s.history, 0, None, None, 0, 0, 0, 0, 0)
    && forall t :: 0 <= t < |s.history| ==> s.history[t] != ""
  }

  predicate Enabled(s: State, e: Event) {
    match e
    case FilesChange(text) => text != ""
    case Call => true
    case Discovered(seen, _) => s.flags.discoveries > 0 && s.begunAt <= seen < |s.history|
    case DiscoveryThrows => s.flags.discoveries > 0
  }

  /** Every event takes a moment, in which the files stay as they are unless they change. */
  function Tick(s: State, text: string): State { s.(history := s.history + [text]) }

  function Now(s: State): string
    requires s.history != []
  {
    s.history[|s.history| - 1]
  }

  predicate WriteThrows(s: State, e: Event)
    requires e.Discovered? && e.seen < |s.history|
  {
    e.writeThrows && s.history[e.seen] != s.flags.currentSource
  }

  function Step(s: State, e: Event): State
    requires s.history != [] && Enabled(s, e)
  {
    var f := s.flags;
    match e
    case FilesChange(text) => Tick(s, text)
    case Call =>
      var s1 := Tick(s, Now(s)).(flags := Called(f), requestedAt := Some(|s.history|), requests := s.requests + 1);
      if f.inFlight then s1 else s1.(begunAt := |s.history|, begun := s.begun + 1, chainWrites := s.writes)
    case Discovered(seen, writeThrows) =>
      var s1 := Tick(s, Now(s)).(flags := Resumed(f, s.history[seen], writeThrows));
      if WriteThrows(s, e) then s1
      else
        var s2 := s1.(completed := Some(s.begunAt), seenAt := seen,
                      writes := s.writes + (if s.history[seen] != f.currentSource then 1 else 0));
        if f.queued then s2.(begunAt := |s.history|, begun := s.begun + 1) else s2
    case DiscoveryThrows => Tick(s, Now(s)).(flags := Thrown(f))
  }

  // ---- What every run keeps ----

  ghost predicate Steady(s: State) {
    && s.history != [] && (forall t :: 0 <= t < |s.history| ==> s.history[t] != "")
    && s.flags.discoveries == (if s.flags.inFlight then 1 else 0)
    && s.begun + (if s.flags.queued then 1 else 0) <= s.requests
    && s.begunAt < |s.history|
    && (s.requestedAt.Some? ==> s.requestedAt.value < |s.history|)
    && (s.flags.inFlight || s.flags.queued ==> s.requestedAt.Some?)
    && (s.flags.inFlight && !s.flags.queued ==> s.requestedAt.value <= s.begunAt)
    && s.chainWrites <= s.writes
    && (s.flags.inFlight ==> (s.flags.changed <==> s.writes > s.chainWrites))
  }

  lemma StepKeepsSteady(s: State, e: Event)
    requires Steady(s) && Enabled(s, e)
    ensures Steady(Step(s, e))
  {
  }

  // ---- Runs in which nothing throws ----

  predicate Throws(s: State, e: Event)
    requires Enabled(s, e)
  {
    e.DiscoveryThrows? || (e.Discovered? && WriteThrows(s, e))
  }

  /** The file on disk holds the current source. */
  predicate Agrees(f: Flags) { f.written == if f.currentSource == "" then None else Some(f.currentSource) }

  predicate Stranded(f: Flags) { f.queued && !f.inFlight }

  /** The last completed discovery began at or after the last request. */
  predicate Served(s: State) {
    s.requestedAt.Some? ==> s.completed.Some? && s.requestedAt.value <= s.completed.value
  }

  ghost predicate Calm(s: State) {
    && Agrees(s.flags) && !Stranded(s.flags)
    && (!s.flags.inFlight ==> Served(s))
    && (s.completed.Some? ==>
          s.completed.value <= s.seenAt < |s.history| && s.flags.currentSource == s.history[s.seenAt])
    && (s.completed.None? ==> s.flags.currentSource == "")
  }

  lemma StepKeepsCalm(s: State, e: Event)
    requires Steady(s) && Calm(s) && Enabled(s, e) && !Throws(s, e)
    ensures Calm(Step(s, e))
  {
  }

  ghost predicate IsRun(states: seq<State>, events: seq<Event>) {
    && |states| == |events| + 1 && Initial(states[0])
    && forall i :: 0 <= i < |events| ==>
         states[i].history != [] && Enabled(states[i], events[i]) && states[i + 1] == Step(states[i], events[i])
  }

  ghost predicate NothingThrows(states: seq<State>, events: seq<Event>)
    requires IsRun(states, events)
  {
    forall i :: 0 <= i < |events| ==> !Throws(states[i], events[i])
  }

  lemma {:induction false} RunIsSteady(states: seq<State>, events: seq<Event>, i: nat)
    requires IsRun(states, events) && i < |states|
    ensures Steady(states[i])
  {
    if i > 0 {
      RunIsSteady(states, events, i - 1);
      StepKeepsSteady(states[i - 1], events[i - 1]);
    }
  }

  /** At most one discovery is in progress, and never more of them begin than there were requests,
      whatever throws. When nothing throws, no request is lost: in every idle state the last
      completed discovery began at or after the last request, and the file on disk holds what it
      found. */
  lemma {:induction false} RefreshLosesNoRequest(states: seq<State>, events: seq<Event>, i: nat)
    requires IsRun(states, events) && i < |states|
    ensures states[i].flags.discoveries <= 1 && states[i].begun <= states[i].requests
    ensures NothingThrows(states, events) ==> Calm(states[i])
  {
    RunIsSteady(states, events, i);
    if NothingThrows(states, events) && i > 0 {
      RefreshLosesNoRequest(states, events, i - 1);
      RunIsSteady(states, events, i - 1);
      StepKeepsCalm(states[i - 1], events[i - 1]);
    }
  }

  /** When nothing throws, an idle refresh has written the module of the current files, unless they
      changed after the last request. */
  lemma IdleModuleIsCurrent(states: seq<State>, events: seq<Event>, i: nat)
    requires IsRun(states, events) && NothingThrows(states, events) && i < |states|
    requires !states[i].flags.inFlight && states[i].requestedAt.Some? && states[i].history != []
    requires forall t :: states[i].requestedAt.value <= t < |states[i].history| ==> states[i].history[t] == Now(states[i])
    ensures states[i].flags.currentSource == Now(states[i]) && states[i].flags.written == Some(Now(states[i]))
  {
    RunIsSteady(states, events, i);
    RefreshLosesNoRequest(states, events, i);
  }

  /** However many requests arrive during a discovery, one follow-up serves them all. */
  lemma SettlesInTwo(s: State, first: Event, second: Event)
    requires Steady(s) && Calm(s) && s.flags.inFlight && first.Discovered? && second.Discovered?
    requires Enabled(s, first) && !Throws(s, first)
    ensures Step(s, first).flags.inFlight <==> s.flags.queued
    ensures var s1 := Step(s, first);
      s1.flags.inFlight && Enabled(s1, second) && !Throws(s1, second) ==> !Step(s1, second).flags.inFlight && Served(Step(s1, second))
  {
    var s1 := Step(s, first);
    StepKeepsSteady(s, first);
    StepKeepsCalm(s, first);
    if s1.flags.inFlight && Enabled(s1, second) && !Throws(s1, second) {
      StepKeepsCalm(s1, second);
    }
  }

  /** A call returns whether the module was written between its start and its end. */
  lemma ReturnsWhetherItWrote(s: State, e: Event)
    requires Steady(s) && e.Discovered? && Enabled(s, e) && !Throws(s, e) && !Step(s, e).flags.inFlight
    ensures var s1 := Step(s, e); s1.flags.returned == Some(s1.writes > s1.chainWrites)
  {
  }

  // ---- What a throw breaks ----

  /** From a state in which the disk agrees, it stops agreeing exactly when a write that was needed throws. */
  lemma AgreementLostIff(s: State, e: Event)
    requires Steady(s) && Agrees(s.flags) && Enabled(s, e)
    ensures Agrees(Step(s, e).flags) <==> !(e.Discovered? && WriteThrows(s, e))
  {
  }

  /** A queued request is left stranded exactly when the discovery or the write it waits for throws. */
  lemma StrandedIff(s: State, e: Event)
    requires Steady(s) && !Stranded(s.flags) && Enabled(s, e)
    ensures Stranded(Step(s, e).flags) <==> s.flags.queued && Throws(s, e)
  {
  }

  /** The next call picks a stranded request up: its discovery is followed by another. */
  lemma NextCallServesStranded(s: State, e: Event)
    requires Steady(s) && Stranded(s.flags) && e.Discovered?
    ensures var s1 := Step(s, Call);
      s1.flags.inFlight && (Enabled(s1, e) && !Throws(s1, e) ==> Step(s1, e).flags.inFlight && !Step(s1, e).flags.queued)
  {
  }

  /** A write that threw is not tried again: as long as every discovery finds the same text, the file
      on disk stays what it was. */
  lemma {:induction false} FailedWriteIsNotRetried(states: seq<State>, events: seq<Event>, i: nat, j: nat)
    requires IsRun(states, events) && i <= j < |states|
    requires forall k :: i <= k < j && events[k].Discovered? ==> states[k].history[events[k].seen] == states[i].flags.currentSource
    ensures states[j].flags.written == states[i].flags.written && states[j].flags.currentSource == states[i].flags.currentSource
    decreases j - i
  {
    if i < j {
      FailedWriteIsNotRetried(states, events, i, j - 1);
    }
  }
}
