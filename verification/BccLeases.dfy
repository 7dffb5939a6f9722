/** Many workers reconciling one payment: the claim is a lease. */
module BccLeases {
  import opened Options
  import opened BccReconciliation

  type WorkerId = int

  /** Where a pass stands between its statements; `now` is its clock sample. */
  datatype Worker =
    | Sampled(now: int)
    | Holding(now: int, claimed: Payment, asked: bool)

  datatype State = State(row: Payment, clock: int, workers: map<WorkerId, Worker>, queries: nat)

  datatype Event =
    | Elapse(ms: nat)
    | Begin(w: WorkerId)
    | ClaimOrGiveUp(w: WorkerId)
    | AskBank(w: WorkerId)
    | Finish(w: WorkerId, bank: Bank)
    | Crash(w: WorkerId)
    | SettleElsewhere(s: Status)

  /** The lease a pass holds, or would claim: it runs from the clock sample. */
  function LeaseEnd(c: Config, h: Worker): int { h.now + c.maxDelay }

  predicate Holds(s: State, w: WorkerId) { w in s.workers && s.workers[w].Holding? }

  /** Every pass ends within its lease: time does not run past the lease of a
      pass under way. A crash ends a pass. */
  predicate InTime(c: Config, s: State, ms: nat) {
    forall w :: w in s.workers ==> s.clock + ms < LeaseEnd(c, s.workers[w])
  }

  predicate Enabled(c: Config, s: State, e: Event) {
    match e
    case Elapse(ms) => InTime(c, s, ms)
    case Begin(w) => w !in s.workers && Pending(s.row)
    case ClaimOrGiveUp(w) => w in s.workers && s.workers[w].Sampled?
    case AskBank(w) => Holds(s, w) && !s.workers[w].asked
    case Finish(w, _) => Holds(s, w) && s.workers[w].asked
    case Crash(w) => w in s.workers
    case SettleElsewhere(to) => !to.Processing?
  }

  function Next(c: Config, s: State, e: Event): State
    requires Enabled(c, s, e)
  {
    match e
    case Elapse(ms) => s.(clock := s.clock + ms)
    case Begin(w) => s.(workers := s.workers[w := Sampled(s.clock)])
    case ClaimOrGiveUp(w) =>
      var now := s.workers[w].now;
      if now >= HardCapAt(c, s.row) then s.(row := MarkedForReview(s.row, now), workers := s.workers - {w})
      else if Claimable(s.row, now) then
        var claimed := Claimed(s.row, now + c.maxDelay);
        s.(row := claimed, workers := s.workers[w := Holding(now, claimed, false)])
      else s.(workers := s.workers - {w})
    case AskBank(w) => s.(workers := s.workers[w := s.workers[w].(asked := true)], queries := s.queries + 1)
    case Finish(w, bank) =>
      var h := s.workers[w];
      var row :=
        match Trusted(h.claimed, bank)
        case Success => SettledAs(s.row, Completed)
        case TerminalFailure => SettledAs(s.row, Failed)
        case NoVerdict => Rescheduled(s.row, NextAt(c, h.claimed, h.now));
      s.(row := row, workers := s.workers - {w})
    case Crash(w) => s.(workers := s.workers - {w})
    case SettleElsewhere(to) => s.(row := SettledAs(s.row, to))
  }

  function Run(c: Config, s: State, events: seq<Event>): State {
    if events == [] then s
    else
      var before := Run(c, s, events[..|events| - 1]);
      var e := events[|events| - 1];
      if Enabled(c, before, e) then Next(c, before, e) else before
  }

  /** One holder at most, inside its lease, and the row's next time is the end
      of that lease or gone for review. */
  predicate Exclusive(c: Config, s: State) {
    && (forall w :: w in s.workers ==> s.workers[w].now <= s.clock < LeaseEnd(c, s.workers[w]))
    && (forall w :: w in s.workers && s.workers[w].Holding? ==>
          s.row.nextReconciliationAt in {None, Some(LeaseEnd(c, s.workers[w]))})
    && (forall v, w :: v in s.workers && w in s.workers && Holds(s, v) && Holds(s, w) ==> v == w)
  }

  lemma StepIsExclusive(c: Config, s: State, e: Event)
    requires Positive(c) && Exclusive(c, s) && Enabled(c, s, e)
    ensures Exclusive(c, Next(c, s, e))
  {
    hide Trusted, Delay;
  }

  /** At every moment of every run at most one worker holds the lease. */
  lemma {:induction false} LeaseIsExclusive(c: Config, s: State, events: seq<Event>)
    requires Positive(c) && s.workers == map[]
    ensures Exclusive(c, Run(c, s, events))
  {
    hide Exclusive, Next, Enabled;
    if events == [] {
      NobodyHolds(c, s);
    } else {
      LeaseIsExclusive(c, s, events[..|events| - 1]);
      var before := Run(c, s, events[..|events| - 1]);
      if Enabled(c, before, events[|events| - 1]) { StepIsExclusive(c, before, events[|events| - 1]); }
    }
  }

  lemma NobodyHolds(c: Config, s: State)
    requires s.workers == map[]
    ensures Exclusive(c, s)
  {
  }

  predicate YetToAsk(s: State, w: WorkerId) { Holds(s, w) && !s.workers[w].asked }

  /** Workers that claimed and have not asked the bank yet. */
  function Askers(s: State): set<WorkerId> { set w | w in s.workers && YetToAsk(s, w) }

  /** A query costs a claim: the attempts counted on the row bound the queries
      made, by workers that crash later too, and those still to be made; so a
      worker that loses the claim never asks. */
  lemma {:induction false} QueriesNeedClaims(c: Config, s: State, events: seq<Event>)
    requires Positive(c) && s.workers == map[]
    ensures var t := Run(c, s, events);
      t.queries - s.queries + |Askers(t)| <= t.row.reconciliationAttempts - s.row.reconciliationAttempts
  {
    if events != [] {
      hide Run, Exclusive, Trusted, NextAt, InTime;
      var before := Run(c, s, events[..|events| - 1]);
      QueriesNeedClaims(c, s, events[..|events| - 1]);
      var e := events[|events| - 1];
      if Enabled(c, before, e) { AskersAfter(c, before, e); }
      RunSnoc(c, s, events);
    }
  }

  lemma RunSnoc(c: Config, s: State, events: seq<Event>)
    requires events != []
    ensures var before := Run(c, s, events[..|events| - 1]); var e := events[|events| - 1];
      Run(c, s, events) == if Enabled(c, before, e) then Next(c, before, e) else before
  {
  }

  lemma AskersAfter(c: Config, s: State, e: Event)
    requires Enabled(c, s, e)
    ensures var t := Next(c, s, e);
      t.queries - s.queries + |Askers(t)| - |Askers(s)| <= t.row.reconciliationAttempts - s.row.reconciliationAttempts
  {
    hide Trusted, NextAt, InTime, Rescheduled, MarkedForReview, SettledAs, Claimable, HardCapAt, Askers;
    if !e.Elapse? && !e.SettleElsewhere? { OneWorker(s, Next(c, s, e), e.w); }
    else { SameAskers(s, Next(c, s, e)); }
  }

  lemma SameAskers(s: State, t: State)
    requires t.workers == s.workers
    ensures Askers(t) == Askers(s)
  {
  }

  lemma OneWorker(s: State, t: State, w: WorkerId)
    requires t.workers - {w} == s.workers - {w}
    ensures |Askers(t)| - (if YetToAsk(t, w) then 1 else 0) == |Askers(s)| - (if YetToAsk(s, w) then 1 else 0)
  {
    var rest := s.(workers := s.workers - {w});
    OthersAre(s, rest, w);
    OthersAre(t, rest, w);
  }

  lemma OthersAre(s: State, rest: State, w: WorkerId)
    requires rest.workers == s.workers - {w}
    ensures w !in Askers(rest) && Askers(s) == if YetToAsk(s, w) then Askers(rest) + {w} else Askers(rest)
  {
    assert forall v :: v in s.workers && v != w ==> v in rest.workers && rest.workers[v] == s.workers[v];
  }

  /** A holder's reschedule never moves the next time past its own lease. */
  lemma RescheduleStaysInLease(c: Config, s: State, w: WorkerId, bank: Bank)
    requires Positive(c) && Exclusive(c, s) && Holds(s, w) && s.workers[w].asked
    ensures var after := Next(c, s, Finish(w, bank)).row.nextReconciliationAt;
      after.Some? ==> after.value <= LeaseEnd(c, s.workers[w])
  {
    hide Trusted;
    var h := s.workers[w];
    DelayIsMonotone(c, h.claimed.reconciliationAttempts, h.claimed.reconciliationAttempts);
  }

  /** A pass that nothing interleaves is the service's `reconcileOnce`. */
  lemma UndisturbedPass(c: Config, s: State, w: WorkerId, bank: Bank)
    requires Positive(c) && w !in s.workers && Pending(s.row)
    ensures var claimed := Next(c, Next(c, s, Begin(w)), ClaimOrGiveUp(w));
      var done := if Holds(claimed, w) then Next(c, Next(c, claimed, AskBank(w)), Finish(w, bank)) else claimed;
      var pass := ReconcilePass(c, Some(s.row), s.clock, bank);
      && pass.row == Some(done.row) && done.workers == s.workers
      && done.queries == s.queries + (if pass.queried then 1 else 0)
  {
    hide Delay;
  }

  // ── Why a pass must end within its lease ────────────────────────────────

  /** While a worker holds the lease, a newcomer gets one too exactly when time
      has run past the end of the lease: with passes that end in time, never,
      and after any overrun, always. */
  lemma NewcomerClaimsExactlyAfterTheLease(c: Config, s: State, w: WorkerId, ms: nat, v: WorkerId)
    requires Positive(c) && Exclusive(c, s) && Holds(s, w) && v !in s.workers
    requires Pending(s.row) && s.row.manualReviewRequiredAt.None? && s.row.nextReconciliationAt.Some?
    requires s.clock + ms < HardCapAt(c, s.row)
    ensures var late := s.(clock := s.clock + ms);
      var claimed := Next(c, Next(c, late, Begin(v)), ClaimOrGiveUp(v));
      && Holds(claimed, w)
      && (Holds(claimed, v) <==> s.clock + ms >= LeaseEnd(c, s.workers[w]))
      && (s.clock + ms >= LeaseEnd(c, s.workers[w]) ==> !InTime(c, s, ms))
  {
    assert s.row.nextReconciliationAt == Some(LeaseEnd(c, s.workers[w]));
  }
}
