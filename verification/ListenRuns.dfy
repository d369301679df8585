/** Every run of the LISTEN connection (context-cache-manager.ts:154-239). */
module ListenRuns {
  import opened Options
  import opened ListenSteps

  /** The state after the events, None when one of them cannot happen. */
  function Run(s: Channel, events: seq<Event>): Option<Channel>
    decreases |events|
  {
    if events == [] then Some(s)
    else
      var before := Run(s, events[..|events| - 1]);
      var e := events[|events| - 1];
      if before.None? || !Enabled(before.value, e) then None else Some(Step(before.value, e))
  }

  const START: Channel := ConnectCalled(NEW_CHANNEL)

  // ---- What every run keeps ----

  /** The variable names the armed timer, and none is armed once stopped. */
  predicate TimerKnown(s: Channel) {
    && s.armed == (if !s.stopped && s.timer.Some? then {s.timer.value} else {})
    && (s.timer.Some? ==> s.timer.value < s.nextTimer)
    && forall a :: a in s.attempts ==> a < s.nextAttempt
  }

  lemma StepKeepsTimer(s: Channel, e: Event)
    requires TimerKnown(s) && Enabled(s, e)
    ensures TimerKnown(Step(s, e)) && (s.stopped ==> Step(s, e).stopped && Step(s, e).attempts.Keys <= s.attempts.Keys)
  {
  }

  predicate Connecting(s: Channel) {
    && s.nextAttempt > 0 && s.attempts.Keys == {s.nextAttempt - 1}
    && s.client.None? && s.timer.None? && s.armed == {}
  }

  predicate Holding(s: Channel) { s.client.Some? && s.attempts == map[] && s.timer.None? && s.armed == {} }

  predicate Waiting(s: Channel) { s.timer.Some? && s.armed == {s.timer.value} && s.attempts == map[] && s.client.None? }

  function AcquiredBy(s: Channel): set<nat> {
    set a | a in s.attempts && s.attempts[a].Some? :: s.attempts[a].value
  }

  function Client(s: Channel): set<nat> { if s.client.Some? then {s.client.value} else {} }

  function FullyListening(s: Channel): map<nat, nat> {
    if s.client.Some? then map[s.client.value := LISTENERS] else map[]
  }

  /** While not stopped the channel is in one of three shapes, its client alone has listeners, all
      three of them, and it holds no other connection. */
  ghost predicate Sound(s: Channel) {
    && TimerKnown(s)
    && (Connecting(s) || Holding(s) || Waiting(s))
    && s.listening == FullyListening(s) && s.held == Client(s) + AcquiredBy(s)
  }

  lemma StepKeepsSound(s: Channel, e: Event)
    requires Sound(s) && !s.stopped && Enabled(s, e) && e != Stop && !e.OnThrows?
    ensures Sound(Step(s, e))
  {
  }

  predicate Ordinary(e: Event) { e != Stop && !e.OnThrows? }

  lemma {:induction false} RunStaysSound(events: seq<Event>)
    requires Run(START, events).Some? && forall i :: 0 <= i < |events| ==> Ordinary(events[i])
    ensures Sound(Run(START, events).value) && !Run(START, events).value.stopped
    decreases |events|
  {
    if events != [] {
      RunStaysSound(events[..|events| - 1]);
      StepKeepsSound(Run(START, events[..|events| - 1]).value, events[|events| - 1]);
    }
  }

  /** Until it is stopped, the channel is connecting, or holds one client, or waits for one timer: one
      of the three and never two, and no other connection is left unreleased. */
  lemma ExactlyOne(events: seq<Event>)
    requires Run(START, events).Some? && forall i :: 0 <= i < |events| ==> Ordinary(events[i])
    ensures var s := Run(START, events).value;
      && |s.attempts| + |Client(s)| + |s.armed| == 1
      && s.held == Client(s) + AcquiredBy(s)
      && s.listening == FullyListening(s)
  {
    RunStaysSound(events);
    var s := Run(START, events).value;
    if Connecting(s) {
      assert |s.attempts.Keys| == 1;
    }
  }

  /** The one step that breaks this is a client whose `on` throws: it is kept beside a timer. */
  lemma SoundnessLostIff(s: Channel, e: Event)
    requires Sound(s) && !s.stopped && Enabled(s, e) && e != Stop
    ensures Sound(Step(s, e)) <==> !e.OnThrows?
  {
    if !e.OnThrows? {
      StepKeepsSound(s, e);
    } else {
      assert Step(s, e).client.Some? && Step(s, e).timer.Some?;
    }
  }

  /** It is regained at the next step exactly by an error of that client, which the channel hears only
      if the error listener had been registered before the throw. */
  lemma SoundAgainIff(s: Channel, a: nat, registered: nat, e: Event)
    requires Sound(s) && !s.stopped && Enabled(s, OnThrows(a, registered))
    requires Enabled(Step(s, OnThrows(a, registered)), e) && e != Stop
    ensures Sound(Step(Step(s, OnThrows(a, registered)), e)) <==> e == ClientError(s.attempts[a].value)
    ensures e.ClientError? ==> registered == 2
  {
    var c := s.attempts[a].value;
    var t := Step(s, OnThrows(a, registered));
    assert AcquiredBy(s) == {c};
    assert t.held == {c} && t.client == Some(c);
    assert t.attempts == map[] && t.listening.Keys <= {c};
    if e.ClientError? {
      var u := Step(t, e);
      assert u.listening == map[] && AcquiredBy(u) == {};
      assert Waiting(u);
    } else {
      assert e == TimerFires(t.timer.value);
      assert t.nextAttempt in Step(t, e).attempts;
      assert Step(t, e).client == Some(c) && Step(t, e).timer.None?;
    }
  }

  /** A connection that is held although neither the variable nor an attempt knows it any more. */
  predicate Leaked(s: Channel, c: nat) {
    c in s.held && s.client != Some(c) && forall a :: a in s.attempts ==> s.attempts[a] != Some(c)
  }

  lemma {:induction false} LeakedForever(s: Channel, c: nat, events: seq<Event>)
    requires Leaked(s, c) && Run(s, events).Some?
    ensures Leaked(Run(s, events).value, c)
    decreases |events|
  {
    if events != [] {
      LeakedForever(s, c, events[..|events| - 1]);
      LeakStays(Run(s, events[..|events| - 1]).value, c, events[|events| - 1]);
    }
  }

  lemma LeakStays(s: Channel, c: nat, e: Event)
    requires Leaked(s, c) && Enabled(s, e)
    ensures Leaked(Step(s, e), c)
  {
  }

  /** If the reconnect timer of such a throw fires first, the next client can take its place, and the
      kept one is never released. */
  lemma ThrowCanLeak(s: Channel, a: nat, registered: nat) returns (events: seq<Event>)
    requires Sound(s) && !s.stopped && Enabled(s, OnThrows(a, registered))
    ensures Run(Step(s, OnThrows(a, registered)), events).Some?
    ensures Leaked(Run(Step(s, OnThrows(a, registered)), events).value, s.attempts[a].value)
  {
    var c := s.attempts[a].value;
    var t := Step(s, OnThrows(a, registered));
    var d := FreshClient(t.held);
    var fired, next := TimerFires(t.timer.value), t.nextAttempt;
    events := [fired, ConnectResolved(next, d), ListenResolved(next)];
    var t1 := Step(t, fired);
    var t2 := Step(t1, ConnectResolved(next, d));
    RunOfThree(t, fired, ConnectResolved(next, d), ListenResolved(next));
  }

  lemma RunOfThree(s: Channel, x: Event, y: Event, z: Event)
    requires Enabled(s, x) && Enabled(Step(s, x), y) && Enabled(Step(Step(s, x), y), z)
    ensures Run(s, [x, y, z]) == Some(Step(Step(Step(s, x), y), z))
  {
    RunOfTwo(s, x, y);
    assert [x, y, z][..2] == [x, y];
  }

  lemma RunOfTwo(s: Channel, x: Event, y: Event)
    requires Enabled(s, x) && Enabled(Step(s, x), y)
    ensures Run(s, [x, y]) == Some(Step(Step(s, x), y))
  {
    assert [x, y][..1] == [x] && [x][..0] == [];
    assert Run(s, [x]) == Some(Step(s, x));
  }

  // ---- Stopping ----

  lemma {:induction false} StopIsPermanent(s: Channel, events: seq<Event>)
    requires TimerKnown(s) && Run(s, events).Some? && (s.stopped || Stop in events)
    ensures TimerKnown(Run(s, events).value) && Run(s, events).value.stopped && Run(s, events).value.armed == {}
    decreases |events|
  {
    if events != [] {
      var init, e := events[..|events| - 1], events[|events| - 1];
      RunKeepsTimer(s, init);
      if s.stopped || Stop in init {
        StopIsPermanent(s, init);
      }
      StepKeepsTimer(Run(s, init).value, e);
    }
  }

  lemma {:induction false} RunKeepsTimer(s: Channel, events: seq<Event>)
    requires TimerKnown(s) && Run(s, events).Some?
    ensures TimerKnown(Run(s, events).value)
    decreases |events|
  {
    if events != [] {
      RunKeepsTimer(s, events[..|events| - 1]);
      StepKeepsTimer(Run(s, events[..|events| - 1]).value, events[|events| - 1]);
    }
  }

  /** Whatever happens, from the first `stop` on no timer is armed. */
  lemma NoTimerAfterStop(events: seq<Event>, n: nat)
    requires n < |events| && events[n] == Stop && Run(START, events).Some?
    ensures Run(START, events).value.armed == {}
  {
    StopIsPermanent(START, events);
  }

  lemma {:induction false} NothingLeftToDo(s: Channel, events: seq<Event>)
    requires s.stopped && s.attempts == map[] && s.armed == {} && s.client.None? && s.listening == map[] && TimerKnown(s)
    requires Run(s, events).Some?
    ensures Run(s, events).value.client.None? && Run(s, events).value == s
    decreases |events|
  {
    if events != [] {
      NothingLeftToDo(s, events[..|events| - 1]);
    }
  }

  lemma {:induction false} FreshClient(held: set<nat>) returns (c: nat)
    ensures c !in held && forall x :: x in held ==> x < c
    decreases |held|
  {
    if held == {} {
      c := 0;
    } else {
      var y :| y in held;
      var d := FreshClient(held - {y});
      c := if d > y then d else y + 1;
      forall x | x in held ensures x < c {
        assert x == y || x in held - {y};
      }
    }
  }

  /** The channel has been stopped, nothing is in progress, and a client is installed all the same. */
  predicate Lingering(s: Channel, c: nat) {
    && s.stopped && s.attempts == map[] && s.armed == {} && s.client == Some(c)
    && s.held == {c} && s.listening == map[c := LISTENERS]
  }

  /** An attempt in progress when the channel is stopped can still install a client. */
  lemma AttemptCanInstall(s: Channel, a: nat) returns (events: seq<Event>, c: nat)
    requires Sound(s) && !s.stopped && a in s.attempts
    ensures Run(Step(s, Stop), events).Some? && Lingering(Run(Step(s, Stop), events).value, c)
  {
    var t := Step(s, Stop);
    assert Connecting(s) && s.attempts.Keys == {a};
    if s.attempts[a].Some? {
      c := s.attempts[a].value;
      events := [ListenResolved(a)];
      assert AcquiredBy(s) == {c};
      assert events[..0] == [];
    } else {
      assert AcquiredBy(s) == {};
      c := FreshClient(t.held);
      events := [ConnectResolved(a, c), ListenResolved(a)];
      RunOfTwo(t, ConnectResolved(a, c), ListenResolved(a));
    }
  }

  predicate Releases(e: Event) { e == Stop || e.ClientError? }

  lemma {:induction false} LingersUnless(s: Channel, c: nat, events: seq<Event>)
    requires Lingering(s, c) && Run(s, events).Some?
    ensures var t := Run(s, events).value;
      if exists i :: 0 <= i < |events| && Releases(events[i])
      then t.stopped && t.attempts == map[] && t.armed == {} && t.client.None? && t.held == {} && t.listening == map[]
      else t == s
    decreases |events|
  {
    if events != [] {
      var init, e := events[..|events| - 1], events[|events| - 1];
      LingersUnless(s, c, init);
      if Releases(e) {
        assert Releases(events[|events| - 1]);
      }
      if i :| 0 <= i < |init| && Releases(init[i]) {
        assert events[i] == init[i];
      }
    }
  }

  /** Such a client stays until it reports an error or the channel is stopped again, and no longer. */
  lemma LingersIff(s: Channel, c: nat, events: seq<Event>)
    requires Lingering(s, c) && Run(s, events).Some?
    ensures c in Run(s, events).value.held <==> forall i :: 0 <= i < |events| ==> !Releases(events[i])
  {
    LingersUnless(s, c, events);
  }

  ghost predicate NeverHoldsAgain(s: Channel) {
    forall events :: Run(s, events).Some? ==> Run(s, events).value.client.None?
  }

  /** After `stop` the channel never holds a client again exactly when no connection attempt was in
      progress; then every connection has been released. */
  lemma StopIsFinalIff(s: Channel)
    requires Sound(s) && !s.stopped
    ensures NeverHoldsAgain(Step(s, Stop)) <==> s.attempts == map[]
    ensures s.attempts == map[] ==> Step(s, Stop).held == {} && Step(s, Stop).listening == map[]
  {
    var t := Step(s, Stop);
    StepKeepsTimer(s, Stop);
    if s.attempts == map[] {
      assert AcquiredBy(s) == {};
      forall events | Run(t, events).Some? ensures Run(t, events).value.client.None? {
        NothingLeftToDo(t, events);
      }
    } else {
      var a :| a in s.attempts;
      var events, c := AttemptCanInstall(s, a);
    }
  }
}
