/** What a reconciliation pass is for, in the fields of the payment it leaves. */
module BccOutcomes {
  import opened Options
  import opened BccReconciliation
  import opened BccLeases

  /** The settings, in figures: a positive value counts, else the fallback; the
      first delay is five minutes at least. */
  lemma ConfigMeans(initial: Option<int>, base: Option<int>, max: Option<int>, cap: Option<int>)
    ensures var c := ConfigFromEnv(initial, base, max, cap);
      && c.initialDelay == (if initial.Some? && initial.value > 300_000 then initial.value else 300_000)
      && c.baseDelay == (if base.Some? && base.value > 0 then base.value else 300_000)
      && c.maxDelay == (if max.Some? && max.value > 0 then max.value else 3_600_000)
      && c.hardCap == (if cap.Some? && cap.value > 0 then cap.value else 86_400_000)
  {
  }

  /** The first wait is the base delay, unless the maximum is less; with
      doubling and saturation this fixes every other. */
  lemma FirstDelay(c: Config, attempts: int)
    requires attempts <= 1
    ensures Delay(c, attempts) == if c.baseDelay <= c.maxDelay then c.baseDelay else c.maxDelay
  {
  }

  /** The bank has answered about this payment, in full, and can be acted on. */
  predicate Answered(p: Payment, bank: Bank) {
    bank.Answer? && bank.httpOk && !bank.settleThrows && (bank.order == "" || bank.order == p.providerTxnId)
  }

  /** A payment a pass may claim at `now`. */
  predicate Due(p: Payment, now: int) {
    && p.provider == Bcc && p.status == Processing && p.manualReviewRequiredAt == None
    && p.nextReconciliationAt.Some? && p.nextReconciliationAt.value <= now
  }

  /** A payment a pass has nothing to do with. */
  lemma IdlePass(c: Config, row: Option<Payment>, now: int, bank: Bank)
    requires row.None? || row.value.provider != Bcc || row.value.status != Processing
    ensures var r := ReconcilePass(c, row, now, bank); r.row == row && r.outcome == Stop && !r.queried
  {
  }

  /** At the cap the payment goes to review, is not asked about and not retried. */
  lemma ReviewPass(c: Config, p: Payment, now: int, bank: Bank)
    requires p.provider == Bcc && p.status == Processing && now >= p.createdAt + c.hardCap
    ensures var r := ReconcilePass(c, Some(p), now, bank);
      && r.outcome == ManualReview && !r.queried && r.row.Some?
      && r.row.value == if p.manualReviewRequiredAt == None
                        then p.(manualReviewRequiredAt := Some(now), nextReconciliationAt := None) else p
  {
  }

  /** A pass that loses the claim changes nothing and comes back when the row says. */
  lemma LosingPass(c: Config, p: Payment, now: int, bank: Bank)
    requires p.provider == Bcc && p.status == Processing && now < p.createdAt + c.hardCap && !Due(p, now)
    ensures var r := ReconcilePass(c, Some(p), now, bank);
      && r.row == Some(p) && !r.queried
      && r.outcome == if p.nextReconciliationAt.Some? then Reschedule(p.nextReconciliationAt.value) else Stop
  {
  }

  /** A pass that claims the payment asks the bank, and settles it as completed
      exactly on a full answer of success, as failed exactly on one of terminal
      failure; otherwise the payment stays as it is but for its next time. */
  lemma ClaimingPass(c: Config, p: Payment, now: int, bank: Bank)
    requires now < p.createdAt + c.hardCap && Due(p, now)
    ensures var r := ReconcilePass(c, Some(p), now, bank);
      r.queried && r.row.Some? && r.row.value.reconciliationAttempts == p.reconciliationAttempts + 1
    ensures var r := ReconcilePass(c, Some(p), now, bank);
      && (r.row.value.status == Completed <==> Answered(p, bank) && bank.verdict == Success)
      && (r.outcome == Settled <==> Answered(p, bank) && bank.verdict == Success)
      && (r.row.value.status == Failed <==> Answered(p, bank) && bank.verdict == TerminalFailure)
      && (r.outcome == FailedOutcome <==> Answered(p, bank) && bank.verdict == TerminalFailure)
    ensures var r := ReconcilePass(c, Some(p), now, bank);
      var next := now + Delay(c, p.reconciliationAttempts + 1);
      var nextAt := if next < p.createdAt + c.hardCap then next else p.createdAt + c.hardCap;
      !Answered(p, bank) || bank.verdict == NoVerdict ==>
        r.outcome == Reschedule(nextAt) && r.row.value.status == Processing
        && r.row.value.nextReconciliationAt == Some(nextAt)
    ensures var q := ReconcilePass(c, Some(p), now, bank).row.value;
      && q.provider == p.provider && q.createdAt == p.createdAt && q.providerTxnId == p.providerTxnId
      && q.manualReviewRequiredAt == p.manualReviewRequiredAt
  {
    hide Delay;
  }

  // ── Runs of many workers ────────────────────────────────────────────────

  /** Somebody settled the payment so: a worker on a full answer with that
      verdict, or another part of the system. */
  predicate SettledBy(e: Event, s: Status) {
    || e == SettleElsewhere(s)
    || (e.Finish? && e.bank.Answer? && e.bank.httpOk && !e.bank.settleThrows
        && ((s == Completed && e.bank.verdict == Success) || (s == Failed && e.bank.verdict == TerminalFailure)))
  }

  lemma SettledAfter(c: Config, s: State, e: Event, to: Status)
    requires Enabled(c, s, e) && to != Processing
    requires Next(c, s, e).row.status == to && s.row.status != to
    ensures SettledBy(e, to) && s.row.status == Processing
  {
    hide NextAt, InTime;
  }

  /** Over any run, a payment reads completed or failed only if it began so or a
      step of the run settled it so. */
  lemma {:induction false} OnlyVerdictsSettle(c: Config, s: State, events: seq<Event>, to: Status)
    requires to != Processing && Run(c, s, events).row.status == to
    ensures s.row.status == to || exists e :: e in events && SettledBy(e, to)
  {
    hide Next, Enabled, SettledBy;
    if events != [] {
      var before, e := Run(c, s, events[..|events| - 1]), events[|events| - 1];
      if before.row.status == to {
        OnlyVerdictsSettle(c, s, events[..|events| - 1], to);
        assert forall x :: x in events[..|events| - 1] ==> x in events;
      } else {
        SettledAfter(c, before, e, to);
        assert e in events;
      }
    }
  }

  /** And a worker that finishes on a verdict does settle a payment still processing. */
  lemma FinishSettles(c: Config, s: State, w: WorkerId, bank: Bank)
    requires Enabled(c, s, Finish(w, bank)) && s.row.status == Processing && Answered(s.workers[w].claimed, bank)
    ensures var status := Next(c, s, Finish(w, bank)).row.status;
      status == match bank.verdict case Success => Completed case TerminalFailure => Failed case NoVerdict => Processing
  {
    hide NextAt;
  }

  /** A reschedule that comes after the payment was settled or put under review
      changes nothing. */
  lemma LateRescheduleIsLost(c: Config, s: State, w: WorkerId, bank: Bank)
    requires Enabled(c, s, Finish(w, bank)) && !(Answered(s.workers[w].claimed, bank) && bank.verdict != NoVerdict)
    requires s.row.status != Processing || s.row.provider != Bcc || s.row.manualReviewRequiredAt.Some?
    ensures Next(c, s, Finish(w, bank)).row == s.row
  {
    hide NextAt;
  }
}
