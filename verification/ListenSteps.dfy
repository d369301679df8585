/** The LISTEN connection behind the context cache: one step per stretch of code between two awaits
    or event callbacks (context-cache-manager.ts:154-239). */
module ListenSteps {
  import opened Options

  /** The closure's variables, and of the world: the armed timers, the connection attempts in
      progress (with the client each has acquired), how many of its three listeners each client has
      (notification, error and end, registered in this order), and the clients not released. */
  datatype Channel = Channel(
    client: Option<nat>, stopped: bool, timer: Option<nat>,
    armed: set<nat>, nextTimer: nat, attempts: map<nat, Option<nat>>, nextAttempt: nat,
    listening: map<nat, nat>, held: set<nat>)

  const NEW_CHANNEL: Channel := Channel(None, false, None, {}, 0, map[], 0, map[], {})

  const LISTENERS: nat := 3

  function ConnectCalled(s: Channel): Channel {
    if s.stopped then s
    else s.(timer := None, armed := if s.timer.Some? then s.armed - {s.timer.value} else s.armed,
            attempts := s.attempts[s.nextAttempt := None], nextAttempt := s.nextAttempt + 1)
  }

  function Rescheduled(s: Channel): Channel {
    if s.stopped || s.timer.Some? then s
    else s.(timer := Some(s.nextTimer), armed := s.armed + {s.nextTimer}, nextTimer := s.nextTimer + 1)
  }

  function Released(s: Channel): Channel {
    if s.client.None? then s
    else s.(client := None, listening := s.listening - {s.client.value}, held := s.held - {s.client.value})
  }

  function Disconnected(s: Channel): Channel { Rescheduled(Released(s)) }

  function Ended(s: Channel, attempt: nat): Channel { s.(attempts := s.attempts - {attempt}) }

  datatype Event =
    | ConnectResolved(attempt: nat, acquired: nat)
    | ConnectRejected(attempt: nat)
    | ListenResolved(attempt: nat)
    | ListenRejected(attempt: nat)
    | OnThrows(attempt: nat, registered: nat)
    | ClientError(of: nat)
    | ClientEnd(of: nat)
    | TimerFires(fired: nat)
    | Stop

  predicate Awaiting(s: Channel, attempt: nat, acquired: bool) {
    attempt in s.attempts && s.attempts[attempt].Some? == acquired
  }

  predicate Enabled(s: Channel, e: Event) {
    match e
    case ConnectResolved(a, c) => Awaiting(s, a, false) && c !in s.held
    case ConnectRejected(a) => Awaiting(s, a, false)
    case ListenResolved(a) => Awaiting(s, a, true)
    case ListenRejected(a) => Awaiting(s, a, true)
    case OnThrows(a, n) => Awaiting(s, a, true) && n < LISTENERS
    case ClientError(c) => c in s.listening && s.listening[c] >= 2
    case ClientEnd(c) => c in s.listening && s.listening[c] >= LISTENERS
    case TimerFires(t) => t in s.armed
    case Stop => true
  }

  /** The client of the attempt is installed and its first `registered` listeners are in place. */
  function Installed(s: Channel, attempt: nat, registered: nat): Channel
    requires Awaiting(s, attempt, true)
  {
    var c := s.attempts[attempt].value;
    Ended(s, attempt).(client := Some(c), listening := if registered > 0 then s.listening[c := registered] else s.listening)
  }

  function Step(s: Channel, e: Event): Channel
    requires Enabled(s, e)
  {
    match e
    case ConnectResolved(a, c) => s.(attempts := s.attempts[a := Some(c)], held := s.held + {c})
    case ConnectRejected(a) => Rescheduled(Ended(s, a))
    case ListenResolved(a) => Installed(s, a, LISTENERS)
    case ListenRejected(a) => Rescheduled(Ended(s, a).(held := s.held - {s.attempts[a].value}))
    case OnThrows(a, n) => Rescheduled(Installed(s, a, n))
    case ClientError(_) => Disconnected(s)
    case ClientEnd(_) => if s.stopped then s else Disconnected(s)
    case TimerFires(t) => ConnectCalled(s.(timer := None, armed := s.armed - {t}))
    case Stop =>
      Released(s.(stopped := true, armed := if s.timer.Some? then s.armed - {s.timer.value} else s.armed))
  }

  class InvalidationChannel {
    var client: Option<nat>
    var stopped: bool
    var reconnectTimer: Option<nat>
    var armed: set<nat>
    var nextTimer: nat
    var attempts: map<nat, Option<nat>>
    var nextAttempt: nat
    var listening: map<nat, nat>
    var held: set<nat>

    ghost function View(): Channel
      reads this
    {
      Channel(client, stopped, reconnectTimer, armed, nextTimer, attempts, nextAttempt, listening, held)
    }

    constructor ()
      ensures View() == ConnectCalled(NEW_CHANNEL)
    {
      client, stopped, reconnectTimer, armed, nextTimer := None, false, None, {}, 0;
      attempts, nextAttempt, listening, held := map[], 0, map[], {};
      new;
      Connect();
    }

    /** From the entry of `connect` to its first await. */
    method Connect()
      modifies this
      ensures View() == ConnectCalled(old(View()))
    {
      if stopped {
        return;
      }
      if reconnectTimer.Some? {
        armed := armed - {reconnectTimer.value};
        reconnectTimer := None;
      }
      attempts := attempts[nextAttempt := None];
      nextAttempt := nextAttempt + 1;
    }

    method ScheduleReconnect()
      modifies this
      ensures View() == Rescheduled(old(View()))
    {
      if stopped {
        return;
      }
      if reconnectTimer.Some? {
        return;
      }
      reconnectTimer := Some(nextTimer);
      armed := armed + {nextTimer};
      nextTimer := nextTimer + 1;
    }

    method ReleaseClient()
      modifies this
      ensures View() == Released(old(View()))
    {
      if client.Some? {
        listening := listening - {client.value};
        held := held - {client.value};
        client := None;
      }
    }

    method Disconnect()
      modifies this
      ensures View() == Disconnected(old(View()))
    {
      ReleaseClient();
      ScheduleReconnect();
    }

    method StopChannel()
      modifies this
      ensures View() == Step(old(View()), Stop)
    {
      stopped := true;
      if reconnectTimer.Some? {
        armed := armed - {reconnectTimer.value};
      }
      ReleaseClient();
    }

    method OnTimer(fired: nat)
      requires Enabled(View(), TimerFires(fired))
      modifies this
      ensures View() == Step(old(View()), TimerFires(fired))
    {
      armed := armed - {fired};
      reconnectTimer := None;
      Connect();
    }

    method OnConnected(attempt: nat, acquired: nat)
      requires Enabled(View(), ConnectResolved(attempt, acquired))
      modifies this
      ensures View() == Step(old(View()), ConnectResolved(attempt, acquired))
    {
      held := held + {acquired};
      attempts := attempts[attempt := Some(acquired)];
    }

    /** The query ends: the client is installed; `registered` of the three calls that register its
        listeners succeed, and the next one, if any, throws. */
    method OnListening(attempt: nat, registered: nat)
      requires Enabled(View(), ListenResolved(attempt)) && registered <= LISTENERS
      modifies this
      ensures View() == Step(old(View()), if registered < LISTENERS then OnThrows(attempt, registered) else ListenResolved(attempt))
    {
      client := attempts[attempt];
      attempts := attempts - {attempt};
      if registered > 0 {
        listening := listening[client.value := registered];
      }
      if registered < LISTENERS {
        ScheduleReconnect();
      }
    }

    /** The catch block, after the connection or the query failed. */
    method OnFailure(attempt: nat)
      requires attempt in attempts
      modifies this
      ensures View() == Step(old(View()), if old(attempts[attempt]).Some? then ListenRejected(attempt) else ConnectRejected(attempt))
    {
      if attempts[attempt].Some? {
        held := held - {attempts[attempt].value};
      }
      attempts := attempts - {attempt};
      ScheduleReconnect();
    }

    method OnClientEvent(of: nat, isError: bool)
      requires Enabled(View(), if isError then ClientError(of) else ClientEnd(of))
      modifies this
      ensures View() == Step(old(View()), if isError then ClientError(of) else ClientEnd(of))
    {
      if isError || !stopped {
        Disconnect();
      }
    }
  }
}
