/** The request ledger as a state machine: admission against budgets, the bounded event log, and
    provider reservations whose reserve call is still awaited (execution-ledger.ts:249-545). */
module LedgerState {
  import opened Options

  datatype Kind = Model | ProviderAttempt | Tool | Planner | ProviderChange | Synthesis | Recovery | HierarchicalTask

  datatype Terminal =
    Completed | Cancelled | Deadline | ModelBudget | ToolBudget | RecoveryBudget | ProviderExhausted | FailedRun

  datatype Budget = Budget(
    deadlineMs: int, modelCalls: int, providerAttempts: int, toolCalls: int, providerChanges: int,
    synthesisAttempts: int, recoveryAttempts: int, plannerCalls: int, hierarchicalTasks: int)

  const MAX_LEDGER_EVENTS: nat := 2048
  const MAX_REMEMBERED: nat := 16
  const MAX_REASON: nat := 160
  const MAX_RESERVATION_ID: nat := 200

  function Limit(b: Budget, kind: Kind): int {
    match kind
    case Model => b.modelCalls
    case ProviderAttempt => b.providerAttempts
    case Tool => b.toolCalls
    case Planner => b.plannerCalls
    case ProviderChange => b.providerChanges
    case Synthesis => b.synthesisAttempts
    case Recovery => b.recoveryAttempts
    case HierarchicalTask => b.hierarchicalTasks
  }

  datatype Details = Details(provider: Option<string>, model: Option<string>, operation: Option<string>)

  datatype EventStatus = EventStarted | EventCompleted | EventRejected | EventFailed

  /** The token usage of a provider request; a reported one is taken as a whole. */
  datatype Usage = UnknownUsage | ReportedUsage(record: nat)

  /** What only a completion reports. */
  datatype Extras = Extras(usage: Option<Usage>, rateLimitScope: Option<string>, retryAfterMs: Option<int>)

  /** `kind` is None for the terminal event. */
  datatype Event = Event(
    kind: Option<Kind>, status: EventStatus, at: int, details: Details,
    reservationId: Option<string>, durationMs: Option<int>, why: Option<Terminal>, reason: Option<string>,
    extras: Extras)

  const NO_DETAILS := Details(None, None, None)
  const NO_EXTRAS := Extras(None, None, None)

  /** Identity of a pair of reserve/reconcile hooks. */
  type Hooks = nat

  /** `pending` holds, by sequence number, the hooks captured by the provider admissions whose
      reserve call has not returned yet. `detached` says that a terminal was set, after which
      neither the deadline timer nor the caller's signal can abort any more. */
  datatype State = State(
    budget: Budget,
    deadlineAt: int,
    aborted: bool,
    detached: bool,
    counts: map<Kind, nat>,
    events: seq<Event>,
    providers: seq<string>,
    models: seq<string>,
    terminalReason: Option<Terminal>,
    hooks: Option<Hooks>,
    sequence: nat,
    pending: map<nat, Hooks>,
    reservations: map<string, Hooks>)

  ghost predicate AllKinds(counts: map<Kind, nat>) { forall k: Kind :: k in counts }

  function LastEvents(history: seq<Event>): (r: seq<Event>)
    ensures |r| <= MAX_LEDGER_EVENTS
  {
    if |history| > MAX_LEDGER_EVENTS then history[|history| - MAX_LEDGER_EVENTS..] else history
  }

  function Push(events: seq<Event>, e: Event): seq<Event> { LastEvents(events + [e]) }

  function Remember(list: seq<string>, value: Option<string>): seq<string> {
    if value.Some? && value.value != "" && value.value !in list && |list| < MAX_REMEMBERED then list + [value.value] else list
  }

  /** `now` and `again` are two consecutive readings of the clock inside one call. */
  function CurrentReason(s: State, again: int): Option<Terminal> {
    if s.terminalReason.Some? then s.terminalReason
    else if s.aborted then Some(if again >= s.deadlineAt then Deadline else Cancelled)
    else None
  }

  function BudgetReason(kind: Kind): Terminal {
    match kind
    case Tool => ToolBudget
    case Recovery => RecoveryBudget
    case Synthesis => RecoveryBudget
    case ProviderChange => ProviderExhausted
    case _ => ModelBudget
  }

  predicate Refuses(s: State, kind: Kind, now: int, again: int)
    requires kind in s.counts
  {
    CurrentReason(s, again).Some? || s.counts[kind] >= Limit(s.budget, kind) || now >= s.deadlineAt
  }

  function RefusalReason(s: State, kind: Kind, now: int, again: int): Terminal {
    var reason := CurrentReason(s, again);
    if reason.Some? then reason.value else if now >= s.deadlineAt then Deadline else BudgetReason(kind)
  }

  function AdmissionEvent(s: State, kind: Kind, d: Details, now: int, again: int): Event
    requires kind in s.counts
  {
    if Refuses(s, kind, now, again)
    then Event(Some(kind), EventRejected, now, d, None, None, Some(RefusalReason(s, kind, now, again)), None, NO_EXTRAS)
    else Event(Some(kind), EventStarted, now, d, None, None, None, None, NO_EXTRAS)
  }

  function Admit(s: State, kind: Kind, d: Details, now: int, again: int): State
    requires kind in s.counts
  {
    var e := AdmissionEvent(s, kind, d, now, again);
    if Refuses(s, kind, now, again) then
      s.(events := Push(s.events, e),
         terminalReason := if s.terminalReason.Some? then s.terminalReason else Some(RefusalReason(s, kind, now, again)))
    else
      s.(counts := s.counts[kind := s.counts[kind] + 1], events := Push(s.events, e),
         providers := Remember(s.providers, d.provider), models := Remember(s.models, d.model))
  }

  lemma AdmitRefused(s: State, kind: Kind, d: Details, now: int, again: int, why: Terminal)
    requires kind in s.counts && Refuses(s, kind, now, again) && why == RefusalReason(s, kind, now, again)
    ensures Admit(s, kind, d, now, again) ==
      s.(events := Push(s.events, Event(Some(kind), EventRejected, now, d, None, None, Some(why), None, NO_EXTRAS)),
         terminalReason := if s.terminalReason.Some? then s.terminalReason else Some(why))
  {
  }

  lemma AdmitStarted(s: State, kind: Kind, d: Details, now: int, again: int)
    requires kind in s.counts && !Refuses(s, kind, now, again)
    ensures Admit(s, kind, d, now, again) ==
      s.(counts := s.counts[kind := s.counts[kind] + 1],
         events := Push(s.events, Event(Some(kind), EventStarted, now, d, None, None, None, None, NO_EXTRAS)),
         providers := Remember(s.providers, d.provider), models := Remember(s.models, d.model))
  {
  }

  datatype Completion = Completion(
    details: Details, reservationId: Option<string>, startedAt: Option<int>, failed: bool, reason: Option<string>,
    extras: Extras)

  /** Empty strings are dropped from a completion event. */
  function Nonempty(v: Option<string>): Option<string> { if v == Some("") then None else v }

  function CompletionEvent(kind: Kind, c: Completion, at: int): Event {
    Event(Some(kind), if c.failed then EventFailed else EventCompleted, at,
          Details(Nonempty(c.details.provider), Nonempty(c.details.model), Nonempty(c.details.operation)),
          Nonempty(c.reservationId),
          if c.startedAt.None? then None else Some(if at < c.startedAt.value then 0 else at - c.startedAt.value),
          None,
          if Nonempty(c.reason).None? then None
          else Some(if |c.reason.value| > MAX_REASON then c.reason.value[..MAX_REASON] else c.reason.value),
          c.extras.(rateLimitScope := Nonempty(c.extras.rateLimitScope)))
  }

  function Complete(s: State, kind: Kind, c: Completion, at: int): State {
    s.(events := Push(s.events, CompletionEvent(kind, c, at)),
       providers := Remember(s.providers, c.details.provider), models := Remember(s.models, c.details.model))
  }

  function TerminalEvent(reason: Terminal, at: int): Event {
    Event(None, EventCompleted, at, NO_DETAILS, None, None, Some(reason), None, NO_EXTRAS)
  }

  function SetTerminal(s: State, reason: Terminal, at: int): State {
    s.(terminalReason := if s.terminalReason.Some? then s.terminalReason else Some(reason),
       events := Push(s.events, TerminalEvent(reason, at)), detached := true)
  }

  /** Only later requests are affected: a request that has begun keeps the hooks it was begun with. */
  function SetHooks(s: State, hooks: Option<Hooks>): State { s.(hooks := hooks) }

  function Abort(s: State): State { if s.detached then s else s.(aborted := true) }

  const MIN_RESERVED_TOKENS: int := 8192

  /** What is reserved for an estimate: its whole part, and never less than the minimum. */
  function ReservedTokens(estimate: real): (r: int)
    ensures r >= MIN_RESERVED_TOKENS
    ensures estimate >= MIN_RESERVED_TOKENS as real ==> r as real <= estimate < (r + 1) as real
    ensures estimate < MIN_RESERVED_TOKENS as real ==> r == MIN_RESERVED_TOKENS
  {
    if estimate.Floor < MIN_RESERVED_TOKENS then MIN_RESERVED_TOKENS else estimate.Floor
  }

  /** A provider request is logged and reserved without an empty operation name. */
  function RequestDetails(d: Details): Details { d.(operation := Nonempty(d.operation)) }

  /** A provider request that reports no usage completes with an unknown one. */
  function UsageOf(c: Completion): Usage { if c.extras.usage.Some? then c.extras.usage.value else UnknownUsage }

  function RequestCompletion(c: Completion): Completion { c.(extras := c.extras.(usage := Some(UsageOf(c)))) }

  /** `admitProviderRequest` up to its await: the hooks current now are captured for this request. */
  function BeginRequest(s: State, d: Details, now: int, again: int): State
    requires ProviderAttempt in s.counts
  {
    var t := Admit(s, ProviderAttempt, RequestDetails(d), now, again);
    if Refuses(s, ProviderAttempt, now, again) || s.hooks.None? then t
    else t.(sequence := t.sequence + 1, pending := t.pending[t.sequence + 1 := s.hooks.value])
  }

  predicate ReservationIdOk(id: string) { id != "" && |id| <= MAX_RESERVATION_ID }

  /** The awaited reserve call of request `sequence` returns; an invalid id throws. */
  function ReserveReturned(s: State, sequence: nat, id: string): State
    requires sequence in s.pending
  {
    var t := s.(pending := s.pending - {sequence});
    if ReservationIdOk(id) then t.(reservations := t.reservations[id := s.pending[sequence]]) else t
  }

  function ReserveThrew(s: State, sequence: nat): State { s.(pending := s.pending - {sequence}) }

  predicate Reconciles(s: State, c: Completion) {
    c.reservationId.Some? && c.reservationId.value != "" && c.reservationId.value in s.reservations
  }

  /** `completeProviderRequest` up to its await: the reservation is removed before it is reconciled. */
  function CompleteRequest(s: State, c: Completion, at: int): State {
    var t := Complete(s, ProviderAttempt, RequestCompletion(c), at);
    if Reconciles(s, c) then t.(reservations := t.reservations - {c.reservationId.value}) else t
  }

  const NO_COUNTS: map<Kind, nat> :=
    map[Model := 0, ProviderAttempt := 0, Tool := 0, Planner := 0, ProviderChange := 0, Synthesis := 0,
        Recovery := 0, HierarchicalTask := 0]

  lemma NoCountsIsTotal()
    ensures AllKinds(NO_COUNTS) && forall k: Kind :: NO_COUNTS[k] == 0
  {
    forall k: Kind ensures k in NO_COUNTS && NO_COUNTS[k] == 0 {
      match k
      case Model =>
      case ProviderAttempt =>
      case Tool =>
      case Planner =>
      case ProviderChange =>
      case Synthesis =>
      case Recovery =>
      case HierarchicalTask =>
    }
  }

  function Initial(budget: Budget, startedAt: int, aborted: bool, hooks: Option<Hooks>): State {
    var deadlineMs := if budget.deadlineMs < 1000 then 1000 else budget.deadlineMs;
    State(budget.(deadlineMs := deadlineMs), startedAt + deadlineMs, aborted, false,
          NO_COUNTS, [], [], [], None, hooks, 0, map[], map[])
  }
}
