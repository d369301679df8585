/** The ledger object itself: one mutable record whose every call is one step of the machine in
    LedgerState (execution-ledger.ts:319-545). */
module ExecutionLedger {
  import opened Options
  import opened LedgerState

  /** What a call hands to the reserve hook and to the reconcile hook. */
  datatype Reservation = Reservation(sequence: nat, hooks: Hooks, details: Details, estimatedTokens: int)
  datatype Reconciliation =
    NoReconciliation | Reconcile(id: string, hooks: Hooks, details: Details, failed: bool, usage: Usage)

  class Ledger {
    const budget: Budget
    const deadlineAt: int
    var aborted: bool
    var detached: bool
    var counts: map<Kind, nat>
    var events: seq<Event>
    var providers: seq<string>
    var models: seq<string>
    var terminalReason: Option<Terminal>
    var providerRequestBudget: Option<Hooks>
    var providerRequestSequence: nat
    var awaitingReserve: map<nat, Hooks>
    var hooksByReservation: map<string, Hooks>

    ghost function Model(): State
      reads this
    {
      State(budget, deadlineAt, aborted, detached, counts, events, providers, models, terminalReason,
            providerRequestBudget, providerRequestSequence, awaitingReserve, hooksByReservation)
    }

    ghost predicate Valid()
      reads this
    {
      AllKinds(counts) && |events| <= MAX_LEDGER_EVENTS
    }

    constructor (requested: Budget, startedAt: int, parentAborted: bool, hooks: Option<Hooks>)
      ensures Valid() && Model() == Initial(requested, startedAt, parentAborted, hooks)
    {
      var deadlineMs := if requested.deadlineMs < 1000 then 1000 else requested.deadlineMs;
      budget := requested.(deadlineMs := deadlineMs);
      deadlineAt := startedAt + deadlineMs;
      aborted, detached := parentAborted, false;
      counts := NO_COUNTS;
      events, providers, models := [], [], [];
      terminalReason := None;
      providerRequestBudget, providerRequestSequence := hooks, 0;
      awaitingReserve, hooksByReservation := map[], map[];
      NoCountsIsTotal();
    }

    method Append(e: Event)
      requires Valid()
      modifies `events
      ensures Valid() && events == Push(old(events), e)
    {
      events := events + [e];
      if |events| > MAX_LEDGER_EVENTS {
        events := events[|events| - MAX_LEDGER_EVENTS..];
      }
    }

    method RememberNames(d: Details)
      modifies `providers, `models
      ensures providers == Remember(old(providers), d.provider) && models == Remember(old(models), d.model)
    {
      if d.provider.Some? && d.provider.value != "" && d.provider.value !in providers && |providers| < MAX_REMEMBERED {
        providers := providers + [d.provider.value];
      }
      if d.model.Some? && d.model.value != "" && d.model.value !in models && |models| < MAX_REMEMBERED {
        models := models + [d.model.value];
      }
    }

    method Refuse(kind: Kind, d: Details, now: int, terminal: Terminal)
      requires Valid()
      modifies `events, `terminalReason
      ensures Valid() && Model() == old(Model()).(
        events := Push(old(events), Event(Some(kind), EventRejected, now, d, None, None, Some(terminal), None, NO_EXTRAS)),
        terminalReason := if old(terminalReason).Some? then old(terminalReason) else Some(terminal))
    {
      Append(Event(Some(kind), EventRejected, now, d, None, None, Some(terminal), None, NO_EXTRAS));
      if terminalReason.None? {
        terminalReason := Some(terminal);
      }
    }

    method Start(kind: Kind, d: Details, now: int)
      requires Valid()
      modifies `counts, `events, `providers, `models
      ensures Valid() && Model() == old(Model()).(
        counts := old(counts)[kind := old(counts)[kind] + 1],
        events := Push(old(events), Event(Some(kind), EventStarted, now, d, None, None, None, None, NO_EXTRAS)),
        providers := Remember(old(providers), d.provider), models := Remember(old(models), d.model))
    {
      counts := counts[kind := counts[kind] + 1];
      RememberNames(d);
      Append(Event(Some(kind), EventStarted, now, d, None, None, None, None, NO_EXTRAS));
    }

    method Admit(kind: Kind, d: Details, now: int, again: int) returns (admitted: bool)
      requires Valid()
      modifies this
      ensures Valid() && Model() == LedgerState.Admit(old(Model()), kind, d, now, again)
      ensures admitted == !Refuses(old(Model()), kind, now, again)
    {
      ghost var before := Model();
      var reason := terminalReason;
      if reason.None? && aborted {
        reason := Some(if again >= deadlineAt then Deadline else Cancelled);
      }
      if reason.Some? || counts[kind] >= Limit(budget, kind) || now >= deadlineAt {
        var terminal := if reason.Some? then reason.value else if now >= deadlineAt then Deadline else BudgetReason(kind);
        AdmitRefused(before, kind, d, now, again, terminal);
        Refuse(kind, d, now, terminal);
        return false;
      }
      AdmitStarted(before, kind, d, now, again);
      Start(kind, d, now);
      return true;
    }

    method Complete(kind: Kind, c: Completion, at: int)
      requires Valid()
      modifies this
      ensures Valid() && Model() == LedgerState.Complete(old(Model()), kind, c, at)
    {
      RememberNames(c.details);
      Append(CompletionEvent(kind, c, at));
    }

    /** Up to the await of the reserve hook; `waiting` is what the hook is called with, if it is. */
    method AdmitProviderRequest(d: Details, estimatedTokens: real, now: int, again: int)
      returns (admitted: bool, waiting: Option<Reservation>)
      requires Valid()
      modifies this
      ensures Valid() && Model() == BeginRequest(old(Model()), d, now, again)
      ensures admitted == !Refuses(old(Model()), ProviderAttempt, now, again)
      ensures waiting.Some? <==> admitted && old(providerRequestBudget).Some?
      ensures waiting.Some? ==>
        && waiting.value == Reservation(old(providerRequestSequence) + 1, old(providerRequestBudget).value, RequestDetails(d),
                                        ReservedTokens(estimatedTokens))
        && waiting.value.sequence in awaitingReserve && awaitingReserve[waiting.value.sequence] == waiting.value.hooks
    {
      waiting := None;
      var details := d.(operation := Nonempty(d.operation));
      admitted := Admit(ProviderAttempt, details, now, again);
      if !admitted {
        return;
      }
      if providerRequestBudget.Some? {
        var hooks := providerRequestBudget.value;
        providerRequestSequence := providerRequestSequence + 1;
        awaitingReserve := awaitingReserve[providerRequestSequence := hooks];
        waiting := Some(Reservation(providerRequestSequence, hooks, details, ReservedTokens(estimatedTokens)));
      }
    }

    /** After that await; `ok` is false where the source throws on an invalid reservation id. */
    method FinishReserve(sequence: nat, reservationId: string) returns (ok: bool)
      requires Valid() && sequence in awaitingReserve
      modifies this
      ensures Valid() && Model() == ReserveReturned(old(Model()), sequence, reservationId)
      ensures ok == ReservationIdOk(reservationId)
    {
      var hooks := awaitingReserve[sequence];
      awaitingReserve := awaitingReserve - {sequence};
      if reservationId == "" || |reservationId| > MAX_RESERVATION_ID {
        return false;
      }
      hooksByReservation := hooksByReservation[reservationId := hooks];
      return true;
    }

    /** Up to the await of the reconcile hook, which is called with the result. */
    method CompleteProviderRequest(c: Completion, at: int) returns (r: Reconciliation)
      requires Valid()
      modifies this
      ensures Valid() && Model() == CompleteRequest(old(Model()), c, at)
      ensures r == if Reconciles(old(Model()), c)
                   then Reconcile(c.reservationId.value, old(hooksByReservation)[c.reservationId.value],
                                  RequestDetails(c.details), c.failed, UsageOf(c))
                   else NoReconciliation
    {
      var usage := if c.extras.usage.Some? then c.extras.usage.value else UnknownUsage;
      Complete(ProviderAttempt, c.(extras := c.extras.(usage := Some(usage))), at);
      if c.reservationId.None? || c.reservationId.value == "" || c.reservationId.value !in hooksByReservation {
        return NoReconciliation;
      }
      r := Reconcile(c.reservationId.value, hooksByReservation[c.reservationId.value],
                     c.details.(operation := Nonempty(c.details.operation)), c.failed, usage);
      hooksByReservation := hooksByReservation - {c.reservationId.value};
    }

    method SetProviderRequestBudgetHooks(hooks: Option<Hooks>)
      requires Valid()
      modifies `providerRequestBudget
      ensures Valid() && Model() == SetHooks(old(Model()), hooks)
    {
      providerRequestBudget := hooks;
    }

    method SetTerminal(reason: Terminal, at: int)
      requires Valid()
      modifies this
      ensures Valid() && Model() == LedgerState.SetTerminal(old(Model()), reason, at)
    {
      if terminalReason.None? {
        terminalReason := Some(reason);
      }
      Append(TerminalEvent(reason, at));
      detached := true;
    }

    /** The deadline timer or the caller's signal fires. */
    method AbortSignal()
      requires Valid()
      modifies `aborted
      ensures Valid() && Model() == Abort(old(Model()))
    {
      if !detached {
        aborted := true;
      }
    }
  }
}
