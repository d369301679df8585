/** What every sequence of ledger calls, interleaved in any way across their awaits, keeps. */
module LedgerRuns {
  import opened Options
  import opened LedgerState

  datatype Op =
    | OpAdmit(kind: Kind, details: Details, now: int, again: int)
    | OpComplete(kind: Kind, completion: Completion, at: int)
    | OpBegin(details: Details, now: int, again: int)
    | OpReserved(sequence: nat, id: string)
    | OpReserveThrew(sequence: nat)
    | OpCompleteRequest(completion: Completion, at: int)
    | OpSetHooks(hooks: Option<Hooks>)
    | OpSetTerminal(reason: Terminal, at: int)
    | OpAbort

  /** An awaited reserve call can only return while it is pending. */
  predicate Enabled(s: State, op: Op) {
    match op
    case OpReserved(sequence, _) => sequence in s.pending
    case OpReserveThrew(sequence) => sequence in s.pending
    case _ => true
  }

  function Next(s: State, op: Op): State
    requires Enabled(s, op) && forall k: Kind :: k in s.counts
  {
    match op
    case OpAdmit(kind, d, now, again) => Admit(s, kind, d, now, again)
    case OpComplete(kind, c, at) => Complete(s, kind, c, at)
    case OpBegin(d, now, again) => BeginRequest(s, d, now, again)
    case OpReserved(sequence, id) => ReserveReturned(s, sequence, id)
    case OpReserveThrew(sequence) => ReserveThrew(s, sequence)
    case OpCompleteRequest(c, at) => CompleteRequest(s, c, at)
    case OpSetHooks(hooks) => SetHooks(s, hooks)
    case OpSetTerminal(reason, at) => SetTerminal(s, reason, at)
    case OpAbort => Abort(s)
  }

  /** A reserve call that has returned an id: of which request, and whose hooks were called. */
  datatype Booking = Booking(sequence: nat, id: string, hooks: Hooks)

  /** A reconcile call; `after` counts the bookings there were when it was made. */
  datatype Reconciling = Reconciling(id: string, hooks: Hooks, after: nat)

  /** What an observer with unbounded memory has seen: `current` are the hooks last set, `begun` the
      hooks current when each provider request that has any was admitted, requests being numbered
      from 1 on in that order; `closed` says that the ledger was ended. */
  datatype Trace = Trace(
    history: seq<Event>, admissions: seq<bool>, current: Option<Hooks>, begun: seq<Hooks>,
    reserved: seq<Booking>, reconciled: seq<Reconciling>, closed: bool)

  function Observe(tr: Trace, s: State, op: Op): Trace
    requires Enabled(s, op) && forall k: Kind :: k in s.counts
  {
    match op
    case OpAdmit(kind, d, now, again) =>
      tr.(history := tr.history + [AdmissionEvent(s, kind, d, now, again)],
          admissions := tr.admissions + [!Refuses(s, kind, now, again)])
    case OpComplete(kind, c, at) => tr.(history := tr.history + [CompletionEvent(kind, c, at)])
    case OpBegin(d, now, again) =>
      tr.(history := tr.history + [AdmissionEvent(s, ProviderAttempt, RequestDetails(d), now, again)],
          admissions := tr.admissions + [!Refuses(s, ProviderAttempt, now, again)],
          begun := if Refuses(s, ProviderAttempt, now, again) || tr.current.None? then tr.begun
                   else tr.begun + [tr.current.value])
    case OpReserved(sequence, id) =>
      if ReservationIdOk(id) then tr.(reserved := tr.reserved + [Booking(sequence, id, s.pending[sequence])]) else tr
    case OpReserveThrew(_) => tr
    case OpCompleteRequest(c, at) =>
      var t := tr.(history := tr.history + [CompletionEvent(ProviderAttempt, RequestCompletion(c), at)]);
      if Reconciles(s, c) then
        t.(reconciled := t.reconciled
             + [Reconciling(c.reservationId.value, s.reservations[c.reservationId.value], |t.reserved|)])
      else t
    case OpSetHooks(hooks) => tr.(current := hooks)
    case OpSetTerminal(reason, at) => tr.(history := tr.history + [TerminalEvent(reason, at)], closed := true)
    case OpAbort => tr
  }

  function StartedOf(history: seq<Event>, k: Kind): nat {
    if history == [] then 0
    else StartedOf(history[..|history| - 1], k)
         + (var e := history[|history| - 1]; if e.kind == Some(k) && e.status == EventStarted then 1 else 0)
  }

  function Bookings(log: seq<Booking>, id: string): nat {
    if log == [] then 0
    else Bookings(log[..|log| - 1], id) + (if log[|log| - 1].id == id then 1 else 0)
  }

  function Reconcilings(log: seq<Reconciling>, id: string): nat {
    if log == [] then 0
    else Reconcilings(log[..|log| - 1], id) + (if log[|log| - 1].id == id then 1 else 0)
  }

  /** The last booking under the id: a further one takes its place. */
  function LastBooked(log: seq<Booking>, id: string): (r: Option<nat>)
    ensures r.Some? ==> r.value < |log| && log[r.value].id == id
                        && forall i :: r.value < i < |log| ==> log[i].id != id
    ensures r.None? ==> forall i :: 0 <= i < |log| ==> log[i].id != id
  {
    if log == [] then None
    else if log[|log| - 1].id == id then Some(|log| - 1)
    else LastBooked(log[..|log| - 1], id)
  }

  ghost predicate TrueThenFalse(bs: seq<bool>) { forall i, j :: 0 <= i < j < |bs| && bs[j] ==> bs[i] }

  // ---- The invariant ----

  ghost predicate LogKept(s: State, tr: Trace) { s.events == LastEvents(tr.history) }

  ghost predicate CountsKept(s: State, tr: Trace) {
    && AllKinds(s.counts)
    && forall k: Kind :: s.counts[k] == StartedOf(tr.history, k) && (s.counts[k] == 0 || s.counts[k] <= Limit(s.budget, k))
  }

  ghost predicate AdmissionsKept(s: State, tr: Trace) {
    && TrueThenFalse(tr.admissions)
    && (s.terminalReason.Some? <==> false in tr.admissions || tr.closed)
  }

  ghost predicate CountsReservations(s: State, tr: Trace) {
    forall id :: Reconcilings(tr.reconciled, id) + (if id in s.reservations then 1 else 0) <= Bookings(tr.reserved, id)
  }

  /** An open reservation, and one that was reconciled, has the hooks of the last booking under its id. */
  ghost predicate HooksOfBookings(s: State, tr: Trace) {
    && (forall id :: id in s.reservations ==> BookedWith(tr.reserved, id, s.reservations[id]))
    && (forall i :: 0 <= i < |tr.reconciled| ==> ReconciledFrom(tr.reserved, tr.reconciled[i]))
  }

  predicate BookedWith(log: seq<Booking>, id: string, hooks: Hooks) {
    LastBooked(log, id).Some? && log[LastBooked(log, id).value].hooks == hooks
  }

  predicate ReconciledFrom(log: seq<Booking>, r: Reconciling) {
    r.after <= |log| && BookedWith(log[..r.after], r.id, r.hooks)
  }

  /** A request that awaits its reserve call, and one whose call has returned, has the hooks that were
      current when it was begun. */
  ghost predicate BegunKept(s: State, tr: Trace) {
    && tr.current == s.hooks && s.sequence == |tr.begun|
    && (forall q :: q in s.pending ==> BegunWith(tr.begun, q, s.pending[q]))
    && (forall i :: 0 <= i < |tr.reserved| ==>
          BegunWith(tr.begun, tr.reserved[i].sequence, tr.reserved[i].hooks) && tr.reserved[i].sequence !in s.pending)
    && (forall i, j :: 0 <= i < j < |tr.reserved| ==> tr.reserved[i].sequence != tr.reserved[j].sequence)
  }

  predicate BegunWith(begun: seq<Hooks>, sequence: nat, hooks: Hooks) {
    0 < sequence <= |begun| && begun[sequence - 1] == hooks
  }

  ghost predicate ReservationsKept(s: State, tr: Trace) {
    CountsReservations(s, tr) && HooksOfBookings(s, tr) && BegunKept(s, tr)
  }

  ghost predicate Kept(s: State, tr: Trace) {
    LogKept(s, tr) && CountsKept(s, tr) && AdmissionsKept(s, tr) && ReservationsKept(s, tr)
  }

  lemma PushKeepsLog(history: seq<Event>, e: Event)
    ensures Push(LastEvents(history), e) == LastEvents(history + [e])
  {
  }

  lemma StartedSnoc(history: seq<Event>, e: Event, k: Kind)
    ensures StartedOf(history + [e], k) == StartedOf(history, k) + (if e.kind == Some(k) && e.status == EventStarted then 1 else 0)
  {
    assert (history + [e])[..|history|] == history;
  }

  lemma BookingsSnoc(log: seq<Booking>, b: Booking, id: string)
    ensures Bookings(log + [b], id) == Bookings(log, id) + (if b.id == id then 1 else 0)
  {
    assert (log + [b])[..|log|] == log;
  }

  lemma ReconcilingsSnoc(log: seq<Reconciling>, r: Reconciling, id: string)
    ensures Reconcilings(log + [r], id) == Reconcilings(log, id) + (if r.id == id then 1 else 0)
  {
    assert (log + [r])[..|log|] == log;
  }

  lemma LastBookedSnoc(log: seq<Booking>, b: Booking, id: string)
    ensures LastBooked(log + [b], id) == if b.id == id then Some(|log|) else LastBooked(log, id)
  {
    assert (log + [b])[..|log|] == log;
  }

  lemma TrueThenFalseSnoc(bs: seq<bool>, b: bool)
    requires TrueThenFalse(bs) && (b ==> false !in bs)
    ensures TrueThenFalse(bs + [b])
  {
    forall i | 0 <= i < |bs| && b ensures bs[i] {
      assert bs[i] in bs;
    }
  }

  /** An admission counts one more of its kind, a refusal none. */
  ghost predicate Moves(s: State, t: State, e: Event, kind: Kind) {
    && AllKinds(s.counts) && t.budget == s.budget
    && if e.status == EventStarted
       then e.kind == Some(kind) && s.counts[kind] < Limit(s.budget, kind) && t.counts == s.counts[kind := s.counts[kind] + 1]
       else t.counts == s.counts
  }

  lemma MoveKeepsCounts(s: State, t: State, tr: Trace, e: Event, kind: Kind)
    requires Moves(s, t, e, kind) && CountsKept(s, tr)
    ensures CountsKept(t, tr.(history := tr.history + [e]))
  {
    forall k: Kind { StartedSnoc(tr.history, e, k); }
  }

  lemma AdmitMoves(s: State, kind: Kind, d: Details, now: int, again: int)
    requires AllKinds(s.counts)
    ensures Moves(s, Admit(s, kind, d, now, again), AdmissionEvent(s, kind, d, now, again), kind)
  {
  }

  lemma AdmitKeepsCounts(s: State, tr: Trace, kind: Kind, d: Details, now: int, again: int)
    requires CountsKept(s, tr)
    ensures CountsKept(Admit(s, kind, d, now, again), tr.(history := tr.history + [AdmissionEvent(s, kind, d, now, again)]))
  {
    AdmitMoves(s, kind, d, now, again);
    MoveKeepsCounts(s, Admit(s, kind, d, now, again), tr, AdmissionEvent(s, kind, d, now, again), kind);
  }

  lemma AdmitKeepsAdmissions(s: State, tr: Trace, kind: Kind, d: Details, now: int, again: int)
    requires AllKinds(s.counts) && AdmissionsKept(s, tr)
    ensures AdmissionsKept(Admit(s, kind, d, now, again), Observe(tr, s, OpAdmit(kind, d, now, again)))
  {
    var admitted := !Refuses(s, kind, now, again);
    TrueThenFalseSnoc(tr.admissions, admitted);
    assert false in tr.admissions + [admitted] <==> false in tr.admissions || !admitted;
  }

  lemma AdmitKeeps(s: State, tr: Trace, kind: Kind, d: Details, now: int, again: int)
    requires Kept(s, tr)
    ensures Kept(Admit(s, kind, d, now, again), Observe(tr, s, OpAdmit(kind, d, now, again)))
  {
    PushKeepsLog(tr.history, AdmissionEvent(s, kind, d, now, again));
    AdmitKeepsCounts(s, tr, kind, d, now, again);
    AdmitKeepsAdmissions(s, tr, kind, d, now, again);
  }

  /** Any other event; `ends` says that it comes with the end of the ledger. */
  lemma EventKeeps(s: State, tr: Trace, t: State, e: Event, ends: bool)
    requires Kept(s, tr) && e.status != EventStarted
    requires t.events == Push(s.events, e) && t.counts == s.counts && t.budget == s.budget
    requires t.terminalReason.Some? <==> s.terminalReason.Some? || ends
    ensures var u := tr.(history := tr.history + [e], closed := tr.closed || ends);
      LogKept(t, u) && CountsKept(t, u) && AdmissionsKept(t, u)
  {
    PushKeepsLog(tr.history, e);
    forall k: Kind { StartedSnoc(tr.history, e, k); }
  }

  lemma BookKeepsHooks(s: State, tr: Trace, b: Booking)
    requires HooksOfBookings(s, tr)
    ensures HooksOfBookings(s.(reservations := s.reservations[b.id := b.hooks]), tr.(reserved := tr.reserved + [b]))
  {
    var all := tr.reserved + [b];
    forall id: string { LastBookedSnoc(tr.reserved, b, id); }
    forall i | 0 <= i < |tr.reconciled| ensures ReconciledFrom(all, tr.reconciled[i]) {
      assert ReconciledFrom(tr.reserved, tr.reconciled[i]);
      assert all[..tr.reconciled[i].after] == tr.reserved[..tr.reconciled[i].after];
    }
  }

  lemma BookKeepsCounts(s: State, tr: Trace, b: Booking)
    requires CountsReservations(s, tr)
    ensures CountsReservations(s.(reservations := s.reservations[b.id := b.hooks]), tr.(reserved := tr.reserved + [b]))
  {
    forall id: string { BookingsSnoc(tr.reserved, b, id); }
  }

  /** The awaited reserve call returns to the request that made it, with the hooks it was made on. */
  lemma ReservedKeepsBegun(s: State, tr: Trace, sequence: nat, id: string)
    requires AllKinds(s.counts) && BegunKept(s, tr) && sequence in s.pending
    ensures BegunKept(ReserveReturned(s, sequence, id), Observe(tr, s, OpReserved(sequence, id)))
  {
  }

  lemma ReservedKeeps(s: State, tr: Trace, sequence: nat, id: string)
    requires Kept(s, tr) && sequence in s.pending
    ensures Kept(ReserveReturned(s, sequence, id), Observe(tr, s, OpReserved(sequence, id)))
  {
    ReservedKeepsBegun(s, tr, sequence, id);
    if ReservationIdOk(id) {
      var b := Booking(sequence, id, s.pending[sequence]);
      BookKeepsHooks(s, tr, b);
      BookKeepsCounts(s, tr, b);
    }
  }

  /** A reservation moves from the open ones to the reconciled ones. */
  lemma ReconcileKeeps(s: State, tr: Trace, id: string)
    requires ReservationsKept(s, tr) && id in s.reservations
    ensures ReservationsKept(s.(reservations := s.reservations - {id}),
                             tr.(reconciled := tr.reconciled + [Reconciling(id, s.reservations[id], |tr.reserved|)]))
  {
    var r := Reconciling(id, s.reservations[id], |tr.reserved|);
    forall i: string { ReconcilingsSnoc(tr.reconciled, r, i); }
    assert tr.reserved[..|tr.reserved|] == tr.reserved;
  }

  lemma CompleteRequestKeeps(s: State, tr: Trace, c: Completion, at: int)
    requires Kept(s, tr)
    ensures Kept(CompleteRequest(s, c, at), Observe(tr, s, OpCompleteRequest(c, at)))
  {
    var full := RequestCompletion(c);
    CompleteKeeps(s, tr, ProviderAttempt, full, at);
    if Reconciles(s, c) {
      ReconcileKeeps(Complete(s, ProviderAttempt, full, at), Observe(tr, s, OpComplete(ProviderAttempt, full, at)), c.reservationId.value);
    }
  }

  lemma BeginKeeps(s: State, tr: Trace, d: Details, now: int, again: int)
    requires Kept(s, tr)
    ensures Kept(BeginRequest(s, d, now, again), Observe(tr, s, OpBegin(d, now, again)))
  {
    AdmitKeeps(s, tr, ProviderAttempt, RequestDetails(d), now, again);
    BeginKeepsBegun(s, tr, d, now, again);
  }

  /** A request takes the next number and the hooks that are current. */
  lemma BeginKeepsBegun(s: State, tr: Trace, d: Details, now: int, again: int)
    requires AllKinds(s.counts) && BegunKept(s, tr)
    ensures BegunKept(BeginRequest(s, d, now, again), Observe(tr, s, OpBegin(d, now, again)))
  {
  }

  lemma CompleteKeeps(s: State, tr: Trace, kind: Kind, c: Completion, at: int)
    requires Kept(s, tr)
    ensures Kept(Complete(s, kind, c, at), Observe(tr, s, OpComplete(kind, c, at)))
  {
    EventKeeps(s, tr, Complete(s, kind, c, at), CompletionEvent(kind, c, at), false);
  }

  lemma SetTerminalKeeps(s: State, tr: Trace, reason: Terminal, at: int)
    requires Kept(s, tr)
    ensures Kept(SetTerminal(s, reason, at), Observe(tr, s, OpSetTerminal(reason, at)))
  {
    EventKeeps(s, tr, SetTerminal(s, reason, at), TerminalEvent(reason, at), true);
  }

  /** Calls that push no event and book nothing. */
  lemma QuietKeeps(s: State, tr: Trace, t: State)
    requires Kept(s, tr) && t == s.(hooks := t.hooks, aborted := t.aborted, pending := t.pending)
    requires t.pending.Keys <= s.pending.Keys && forall q :: q in t.pending ==> t.pending[q] == s.pending[q]
    ensures Kept(t, tr.(current := t.hooks))
  {
  }

  lemma TerminalStays(s: State, op: Op)
    requires AllKinds(s.counts) && Enabled(s, op) && s.terminalReason.Some?
    ensures Next(s, op).terminalReason == s.terminalReason
  {
  }

  /** Every call keeps the invariant, and a terminal reason once written is never rewritten. */
  lemma StepKeeps(s: State, tr: Trace, op: Op)
    requires Kept(s, tr) && Enabled(s, op)
    ensures Kept(Next(s, op), Observe(tr, s, op))
    ensures s.terminalReason.Some? ==> Next(s, op).terminalReason == s.terminalReason
  {
    match op
    case OpAdmit(kind, d, now, again) => AdmitKeeps(s, tr, kind, d, now, again);
    case OpComplete(kind, c, at) => CompleteKeeps(s, tr, kind, c, at);
    case OpBegin(d, now, again) => BeginKeeps(s, tr, d, now, again);
    case OpReserved(sequence, id) => ReservedKeeps(s, tr, sequence, id);
    case OpReserveThrew(sequence) => QuietKeeps(s, tr, ReserveThrew(s, sequence));
    case OpCompleteRequest(c, at) => CompleteRequestKeeps(s, tr, c, at);
    case OpSetHooks(_) => QuietKeeps(s, tr, Next(s, op));
    case OpSetTerminal(reason, at) => SetTerminalKeeps(s, tr, reason, at);
    case OpAbort => QuietKeeps(s, tr, Abort(s));
    if s.terminalReason.Some? { TerminalStays(s, op); }
  }

  // ---- Whole runs ----

  /** Nothing has been seen yet but the hooks the ledger is created with. */
  function Unseen(hooks: Option<Hooks>): Trace { Trace([], [], hooks, [], [], [], false) }

  /** `ops` can happen in this order from `s`. */
  ghost predicate Possible(s: State, ops: seq<Op>)
    decreases |ops|
  {
    AllKinds(s.counts)
    && (ops != [] ==> Enabled(s, ops[0]) && Possible(Next(s, ops[0]), ops[1..]))
  }

  ghost function RunState(s: State, ops: seq<Op>): State
    requires Possible(s, ops)
    decreases |ops|
  {
    if ops == [] then s else RunState(Next(s, ops[0]), ops[1..])
  }

  ghost function RunTrace(tr: Trace, s: State, ops: seq<Op>): Trace
    requires Possible(s, ops)
    decreases |ops|
  {
    if ops == [] then tr else RunTrace(Observe(tr, s, ops[0]), Next(s, ops[0]), ops[1..])
  }

  lemma {:induction false} RunKeeps(s: State, tr: Trace, ops: seq<Op>)
    requires Possible(s, ops) && Kept(s, tr)
    ensures Kept(RunState(s, ops), RunTrace(tr, s, ops))
    ensures s.terminalReason.Some? ==> RunState(s, ops).terminalReason == s.terminalReason
    decreases |ops|
  {
    if ops != [] {
      StepKeeps(s, tr, ops[0]);
      RunKeeps(Next(s, ops[0]), Observe(tr, s, ops[0]), ops[1..]);
    }
  }

  /** Once written, the terminal reason is the same after every further run of calls. */
  lemma {:induction false} TerminalWrittenOnce(s: State, tr: Trace, ops: seq<Op>)
    requires Kept(s, tr) && Possible(s, ops) && s.terminalReason.Some?
    ensures RunState(s, ops).terminalReason == s.terminalReason
    decreases |ops|
  {
    if ops != [] {
      StepKeeps(s, tr, ops[0]);
      TerminalWrittenOnce(Next(s, ops[0]), Observe(tr, s, ops[0]), ops[1..]);
    }
  }

  lemma BudgetUnchanged(s: State, op: Op)
    requires Enabled(s, op) && AllKinds(s.counts)
    ensures Next(s, op).budget == s.budget
  {
    match op
    case OpAdmit(kind, d, now, again) =>
    case OpBegin(d, now, again) =>
    case _ =>
  }

  lemma {:induction false} RunBudgetUnchanged(s: State, ops: seq<Op>)
    requires Possible(s, ops)
    ensures RunState(s, ops).budget == s.budget
    decreases |ops|
  {
    if ops != [] {
      BudgetUnchanged(s, ops[0]);
      RunBudgetUnchanged(Next(s, ops[0]), ops[1..]);
    }
  }

  /** Admission over a whole run of a fresh ledger: per kind, the count never exceeds a
      natural-number budget and equals the `started` events ever logged; the results of all
      admissions, of every kind, read true … true false … false. */
  lemma LedgerAdmission(budget: Budget, startedAt: int, aborted: bool, hooks: Option<Hooks>, ops: seq<Op>)
    requires Possible(Initial(budget, startedAt, aborted, hooks), ops)
    ensures var s0 := Initial(budget, startedAt, aborted, hooks);
      var s := RunState(s0, ops);
      var tr := RunTrace(Unseen(hooks), s0, ops);
      && (forall k: Kind :: k in s.counts && s.counts[k] == StartedOf(tr.history, k)
            && (Limit(budget, k) >= 0 ==> s.counts[k] <= Limit(budget, k))
            && (Limit(budget, k) < 0 ==> s.counts[k] == 0))
      && TrueThenFalse(tr.admissions)
      && (s.terminalReason.Some? <==> false in tr.admissions || tr.closed)
  {
    var s0 := Initial(budget, startedAt, aborted, hooks);
    NoCountsIsTotal();
    assert Kept(s0, Unseen(hooks));
    RunKeeps(s0, Unseen(hooks), ops);
    RunBudgetUnchanged(s0, ops);
    assert forall k: Kind :: Limit(s0.budget, k) == Limit(budget, k);
  }

  /** After any run, a further admission succeeds exactly when none was refused before, the ledger was
      neither ended nor aborted, fewer of the kind were started than the budget allows, and the
      deadline is not reached. */
  lemma AdmittedExactly(budget: Budget, startedAt: int, aborted: bool, hooks: Option<Hooks>, ops: seq<Op>,
                        kind: Kind, now: int, again: int)
    requires Possible(Initial(budget, startedAt, aborted, hooks), ops)
    ensures var s0 := Initial(budget, startedAt, aborted, hooks);
      var s := RunState(s0, ops);
      var tr := RunTrace(Unseen(hooks), s0, ops);
      kind in s.counts
      && (!Refuses(s, kind, now, again) <==>
            && false !in tr.admissions && !tr.closed && !s.aborted
            && StartedOf(tr.history, kind) < Limit(budget, kind) && now < s.deadlineAt)
  {
    LedgerAdmission(budget, startedAt, aborted, hooks, ops);
    RunBudgetUnchanged(Initial(budget, startedAt, aborted, hooks), ops);
  }

  ghost predicate DistinctIds(log: seq<Booking>) { forall i, j :: 0 <= i < j < |log| ==> log[i].id != log[j].id }

  lemma {:induction false} DistinctBookings(log: seq<Booking>, id: string)
    requires DistinctIds(log)
    ensures Bookings(log, id) <= 1
    ensures Bookings(log, id) == 0 ==> forall b :: b in log ==> b.id != id
  {
    if log != [] {
      var m := |log| - 1;
      DistinctBookings(log[..m], id);
      if log[m].id == id {
        AbsentBookings(log[..m], id);
      }
    }
  }

  lemma {:induction false} AbsentBookings(log: seq<Booking>, id: string)
    requires forall i :: 0 <= i < |log| ==> log[i].id != id
    ensures Bookings(log, id) == 0
  {
    if log != [] {
      AbsentBookings(log[..|log| - 1], id);
    }
  }

  /** The i-th reconcile call settles the last booking made under its id before it, on the hooks that
      were current when the request of that booking was begun. */
  predicate Settles(tr: Trace, i: nat, j: nat)
    requires i < |tr.reconciled|
  {
    var r := tr.reconciled[i];
    && j < r.after <= |tr.reserved| && tr.reserved[j].id == r.id && tr.reserved[j].hooks == r.hooks
    && (forall m :: j < m < r.after ==> tr.reserved[m].id != r.id)
    && BegunWith(tr.begun, tr.reserved[j].sequence, r.hooks)
  }

  ghost predicate SettlesABooking(tr: Trace, i: nat)
    requires i < |tr.reconciled|
  {
    exists j: nat :: Settles(tr, i, j)
  }

  lemma ReconciledSettles(s: State, tr: Trace, i: nat) returns (j: nat)
    requires ReservationsKept(s, tr) && i < |tr.reconciled|
    ensures Settles(tr, i, j)
  {
    var r := tr.reconciled[i];
    assert ReconciledFrom(tr.reserved, r);
    var log := tr.reserved[..r.after];
    j := LastBooked(log, r.id).value;
    assert log[j] == tr.reserved[j];
    forall m | j < m < r.after ensures tr.reserved[m].id != r.id {
      assert log[m] == tr.reserved[m];
    }
  }

  /** The stored log is exactly the last min(n, 2048) events of the full history. Every request gets
      one reserve call at most. A reservation id is reconciled at most as often as it was reserved,
      and always on the hooks that were current when the request that reserved it last was begun,
      however hooks were swapped and calls interleaved meanwhile, the awaits of both calls included;
      with fresh ids that is at most once, and never while the reservation is still open. */
  lemma LedgerReservations(budget: Budget, startedAt: int, aborted: bool, hooks: Option<Hooks>, ops: seq<Op>)
    requires Possible(Initial(budget, startedAt, aborted, hooks), ops)
    ensures var s0 := Initial(budget, startedAt, aborted, hooks);
      var s := RunState(s0, ops);
      var tr := RunTrace(Unseen(hooks), s0, ops);
      && s.events == LastEvents(tr.history)
      && (forall i, j :: 0 <= i < j < |tr.reserved| ==> tr.reserved[i].sequence != tr.reserved[j].sequence)
      && (forall i :: 0 <= i < |tr.reserved| ==> BegunWith(tr.begun, tr.reserved[i].sequence, tr.reserved[i].hooks))
      && (forall id :: Reconcilings(tr.reconciled, id) + (if id in s.reservations then 1 else 0) <= Bookings(tr.reserved, id))
      && (forall i :: 0 <= i < |tr.reconciled| ==> SettlesABooking(tr, i))
      && (DistinctIds(tr.reserved) ==>
            forall id :: Reconcilings(tr.reconciled, id) <= 1
              && (id in s.reservations ==> Reconcilings(tr.reconciled, id) == 0))
      && (DistinctIds(tr.reserved) ==>
            forall a, b :: a in tr.reconciled && b in tr.reserved && a.id == b.id ==>
              a.hooks == b.hooks && BegunWith(tr.begun, b.sequence, a.hooks))
  {
    var s0 := Initial(budget, startedAt, aborted, hooks);
    NoCountsIsTotal();
    assert Kept(s0, Unseen(hooks));
    RunKeeps(s0, Unseen(hooks), ops);
    var s, tr := RunState(s0, ops), RunTrace(Unseen(hooks), s0, ops);
    forall i | 0 <= i < |tr.reconciled| ensures SettlesABooking(tr, i) {
      var j := ReconciledSettles(s, tr, i);
    }
    if DistinctIds(tr.reserved) {
      ReconciledOnce(s, tr);
    }
  }

  lemma ReconciledOnce(s: State, tr: Trace)
    requires ReservationsKept(s, tr) && DistinctIds(tr.reserved)
    ensures forall id :: Reconcilings(tr.reconciled, id) <= 1 && (id in s.reservations ==> Reconcilings(tr.reconciled, id) == 0)
    ensures forall a, b :: a in tr.reconciled && b in tr.reserved && a.id == b.id ==>
      a.hooks == b.hooks && BegunWith(tr.begun, b.sequence, a.hooks)
  {
    forall id: string { DistinctBookings(tr.reserved, id); }
    forall a, b | a in tr.reconciled && b in tr.reserved && a.id == b.id
      ensures a.hooks == b.hooks && BegunWith(tr.begun, b.sequence, a.hooks)
    {
      var i: nat :| i < |tr.reconciled| && tr.reconciled[i] == a;
      var k: nat :| k < |tr.reserved| && tr.reserved[k] == b;
      var j := ReconciledSettles(s, tr, i);
      assert j == k;
    }
  }
}
