/** Reconciling a BCC payment with the bank: the back-off, the statements on the
    payment row, one pass of the service, and the job that repeats it. */
module BccReconciliation {
  import opened Options
  import opened DecimalText

  type Id = string

  // ── Settings ────────────────────────────────────────────────────────────

  const MINUTE: int := 60_000

  /** An environment value as a positive safe integer, else the fallback;
      `raw` is None when it is blank or no safe integer. */
  function PositiveEnv(raw: Option<int>, fallback: int): int {
    if raw.Some? && raw.value > 0 then raw.value else fallback
  }

  datatype Config = Config(initialDelay: int, baseDelay: int, maxDelay: int, hardCap: int)

  predicate Positive(c: Config) {
    c.initialDelay >= 5 * MINUTE && c.baseDelay > 0 && c.maxDelay > 0 && c.hardCap > 0
  }

  function Min(a: int, b: int): int { if a <= b then a else b }

  function Max(a: int, b: int): int { if a >= b then a else b }

  /** Whatever the environment holds, the settings are usable. */
  function ConfigFromEnv(initial: Option<int>, base: Option<int>, max: Option<int>, cap: Option<int>): (c: Config)
    ensures Positive(c)
  {
    Config(Max(5 * MINUTE, PositiveEnv(initial, 5 * MINUTE)), PositiveEnv(base, 5 * MINUTE),
           PositiveEnv(max, 60 * MINUTE), PositiveEnv(cap, 24 * 60 * MINUTE))
  }

  // ── The back-off ────────────────────────────────────────────────────────

  function Pow2(n: nat): (p: nat)
    ensures p >= 1
  {
    if n == 0 then 1 else 2 * Pow2(n - 1)
  }

  /** `bccReconciliationDelayMs`. */
  function Delay(c: Config, attempts: int): int {
    Min(c.maxDelay, c.baseDelay * Pow2(Max(0, Min(30, attempts - 1))))
  }

  lemma {:induction false} Pow2Grows(m: nat, n: nat)
    requires m <= n
    ensures Pow2(m) <= Pow2(n)
  {
    if m < n { Pow2Grows(m, n - 1); }
  }

  /** More attempts never mean a shorter wait, and every wait lies between the
      smaller of base and maximum, and the maximum. */
  lemma DelayIsMonotone(c: Config, a: int, b: int)
    requires Positive(c) && a <= b
    ensures Delay(c, a) <= Delay(c, b)
    ensures Min(c.baseDelay, c.maxDelay) <= Delay(c, a) <= c.maxDelay
  {
    var i, j := Max(0, Min(30, a - 1)), Max(0, Min(30, b - 1));
    Pow2Grows(i, j);
    Scaled(c.baseDelay, Pow2(i), Pow2(j));
    Scaled(c.baseDelay, 1, Pow2(i));
  }

  lemma Scaled(k: nat, a: nat, b: nat)
    requires a <= b
    ensures k * a <= k * b
  {
  }

  /** The wait doubles with each attempt until it saturates. */
  lemma DelayDoubles(c: Config, attempts: int)
    requires Positive(c) && 1 <= attempts <= 30
    ensures Delay(c, attempts + 1) == Min(c.maxDelay, 2 * Delay(c, attempts))
  {
    hide Pow2;
    Doubled(c.baseDelay, attempts - 1);
  }

  lemma Doubled(k: int, n: nat)
    ensures k * Pow2(n + 1) == 2 * (k * Pow2(n))
  {
    Commute(k, Pow2(n));
  }

  lemma Commute(k: int, p: int)
    ensures k * (2 * p) == 2 * (k * p)
  {
  }

  /** From the thirty-first attempt on the wait is constant, at the maximum
      exactly when the base can double its way there. */
  lemma DelaySaturates(c: Config, attempts: int)
    requires Positive(c) && attempts >= 31
    ensures Delay(c, attempts) == Delay(c, 31)
    ensures Delay(c, 31) == c.maxDelay <==> c.maxDelay <= c.baseDelay * Pow2(30)
  {
  }

  // ── The payment row and its statements ──────────────────────────────────

  datatype Provider = Bcc | OtherProvider

  datatype Status = Initiated | Processing | Completed | Failed | Cancelled

  datatype Payment = Payment(
    provider: Provider, status: Status, createdAt: int, providerTxnId: string, reconciliationAttempts: nat,
    nextReconciliationAt: Option<int>, manualReviewRequiredAt: Option<int>)

  predicate Pending(p: Payment) { p.provider.Bcc? && p.status.Processing? }

  predicate Claimable(p: Payment, now: int) {
    && Pending(p) && p.manualReviewRequiredAt.None?
    && p.nextReconciliationAt.Some? && p.nextReconciliationAt.value <= now
  }

  function Claimed(p: Payment, leaseUntil: int): Payment {
    p.(reconciliationAttempts := p.reconciliationAttempts + 1, nextReconciliationAt := Some(leaseUntil))
  }

  function Rescheduled(p: Payment, nextAt: int): (q: Payment)
    ensures q.reconciliationAttempts == p.reconciliationAttempts
  {
    if Pending(p) && p.manualReviewRequiredAt.None? then p.(nextReconciliationAt := Some(nextAt)) else p
  }

  function MarkedForReview(p: Payment, now: int): (q: Payment)
    ensures q.reconciliationAttempts == p.reconciliationAttempts
  {
    if Pending(p) && p.manualReviewRequiredAt.None?
    then p.(manualReviewRequiredAt := Some(now), nextReconciliationAt := None) else p
  }

  /** Settling flips a payment that is still processing, and only that. */
  function SettledAs(p: Payment, s: Status): (q: Payment)
    ensures q.reconciliationAttempts == p.reconciliationAttempts
  {
    if p.status.Processing? then p.(status := s) else p
  }

  function HardCapAt(c: Config, p: Payment): int { p.createdAt + c.hardCap }

  function NextAt(c: Config, claimed: Payment, now: int): int {
    Min(HardCapAt(c, claimed), now + Delay(c, claimed.reconciliationAttempts))
  }

  // ── One pass ────────────────────────────────────────────────────────────

  datatype Verdict = Success | TerminalFailure | NoVerdict

  /** What the bank answers; a thrown error counts as no answer. */
  datatype Bank = Throws | Answer(order: string, httpOk: bool, verdict: Verdict, settleThrows: bool)

  datatype Outcome = Ignored | Stop | ManualReview | Reschedule(at: int) | Settled | FailedOutcome

  /** The verdict a pass acts on: none when the answer is about another order,
      not an HTTP success, or settling throws. */
  function Trusted(p: Payment, bank: Bank): Verdict {
    match bank
    case Throws => NoVerdict
    case Answer(order, httpOk, verdict, settleThrows) =>
      if (order != "" && order != p.providerTxnId) || !httpOk || settleThrows then NoVerdict else verdict
  }

  datatype Pass = Pass(row: Option<Payment>, outcome: Outcome, queried: bool)

  /** What `reconcileOnce` does to the row when nothing else interferes. */
  function ReconcilePass(c: Config, row: Option<Payment>, now: int, bank: Bank): Pass {
    if row.None? || !Pending(row.value) then Pass(row, Stop, false)
    else
      var p := row.value;
      if now >= HardCapAt(c, p) then Pass(Some(MarkedForReview(p, now)), ManualReview, false)
      else if !Claimable(p, now) then
        Pass(row, if p.nextReconciliationAt.Some? then Reschedule(p.nextReconciliationAt.value) else Stop, false)
      else
        var claimed := Claimed(p, now + c.maxDelay);
        match Trusted(claimed, bank)
        case Success => Pass(Some(SettledAs(claimed, Completed)), Settled, true)
        case TerminalFailure => Pass(Some(SettledAs(claimed, Failed)), FailedOutcome, true)
        case NoVerdict =>
          var nextAt := NextAt(c, claimed, now);
          Pass(Some(Rescheduled(claimed, nextAt)), Reschedule(nextAt), true)
  }

  function Row(rows: map<Id, Payment>, id: Id): Option<Payment> { if id in rows then Some(rows[id]) else None }

  class PaymentRepository {
    var rows: map<Id, Payment>

    constructor ()
      ensures rows == map[]
    {
      rows := map[];
    }

    /** The conditional claim: None when another pass holds the lease. */
    method ClaimBccReconciliation(id: Id, now: int, leaseUntil: int) returns (claimed: Option<Payment>)
      modifies this
      ensures claimed.Some? <==> id in old(rows) && Claimable(old(rows)[id], now)
      ensures claimed.Some? ==> claimed.value == Claimed(old(rows)[id], leaseUntil)
      ensures claimed.Some? ==> rows == old(rows)[id := claimed.value]
      ensures claimed.None? ==> rows == old(rows)
    {
      if id !in rows || !Claimable(rows[id], now) { return None; }
      var p := rows[id];
      p := p.(reconciliationAttempts := p.reconciliationAttempts + 1, nextReconciliationAt := Some(leaseUntil));
      rows := rows[id := p];
      claimed := Some(p);
    }

    method RescheduleBccReconciliation(id: Id, nextAt: int)
      requires id in rows
      modifies this
      ensures rows == old(rows)[id := Rescheduled(old(rows)[id], nextAt)]
    {
      var p := rows[id];
      if Pending(p) && p.manualReviewRequiredAt == None {
        p := p.(nextReconciliationAt := Some(nextAt));
      }
      rows := rows[id := p];
    }

    method MarkBccManualReview(id: Id, now: int)
      requires id in rows
      modifies this
      ensures rows == old(rows)[id := MarkedForReview(old(rows)[id], now)]
    {
      var p := rows[id];
      if Pending(p) && p.manualReviewRequiredAt == None {
        p := p.(manualReviewRequiredAt := Some(now), nextReconciliationAt := None);
      }
      rows := rows[id := p];
    }
  }

  class BccReconciliationService {
    const paymentRepo: PaymentRepository
    const config: Config

    constructor (paymentRepo: PaymentRepository, config: Config)
      ensures this.paymentRepo == paymentRepo && this.config == config
    {
      this.paymentRepo, this.config := paymentRepo, config;
    }

    method ReconcileOnce(id: Id, now: int, bank: Bank) returns (outcome: Outcome, queried: bool)
      modifies paymentRepo
      ensures var done := ReconcilePass(config, old(Row(paymentRepo.rows, id)), now, bank);
        && outcome == done.outcome && queried == done.queried
        && paymentRepo.rows ==
             if done.row.Some? then old(paymentRepo.rows)[id := done.row.value] else old(paymentRepo.rows)
    {
      queried := false;
      ghost var was := paymentRepo.rows;
      assert id in was ==> was == was[id := was[id]];
      if id !in paymentRepo.rows || !Pending(paymentRepo.rows[id]) { return Stop, queried; }
      var hardCapAt := paymentRepo.rows[id].createdAt + config.hardCap;
      if now >= hardCapAt {
        paymentRepo.MarkBccManualReview(id, now);
        return ManualReview, queried;
      }
      var claim := paymentRepo.ClaimBccReconciliation(id, now, now + config.maxDelay);
      if claim.None? {
        var refreshed := paymentRepo.rows[id];
        if refreshed.nextReconciliationAt.Some? { return Reschedule(refreshed.nextReconciliationAt.value), queried; }
        return Stop, queried;
      }
      var claimed := claim.value;
      queried := true;
      var verdict := NoVerdict;
      if bank.Answer? && !(bank.order != "" && bank.order != claimed.providerTxnId) && bank.httpOk {
        if !bank.settleThrows { verdict := bank.verdict; }
      }
      match verdict
      case Success =>
        paymentRepo.rows := paymentRepo.rows[id := SettledAs(claimed, Completed)];
        outcome := Settled;
      case TerminalFailure =>
        paymentRepo.rows := paymentRepo.rows[id := SettledAs(claimed, Failed)];
        outcome := FailedOutcome;
      case NoVerdict =>
        var nextAt := Min(hardCapAt, now + Delay(config, claimed.reconciliationAttempts));
        paymentRepo.RescheduleBccReconciliation(id, nextAt);
        outcome := Reschedule(nextAt);
    }
  }

  // ── Jobs ────────────────────────────────────────────────────────────────

  function JobId(prefix: string, paymentId: Id, tick: nat): string { prefix + paymentId + "-" + Digits(tick) }

  /** Job ids of one queue never clash: the tick is what follows the last dash. */
  lemma JobIdsAreDistinct(prefix: string, id: Id, tick: nat, otherId: Id, otherTick: nat)
    requires JobId(prefix, id, tick) == JobId(prefix, otherId, otherTick)
    ensures id == otherId && tick == otherTick
  {
    hide Digits;
    var s := JobId(prefix, id, tick);
    var d, e := Digits(tick), Digits(otherTick);
    var a, b := prefix + id, prefix + otherId;
    assert s == a + "-" + d && s == b + "-" + e;
    assert s[|a|] == '-' && s[|b|] == '-';
    assert forall k :: |a| < k < |s| ==> s[k] == d[k - |a| - 1];
    assert forall k :: |b| < k < |s| ==> s[k] == e[k - |b| - 1];
    assert |a| == |b|;
    assert a == s[..|a|] == b && d == s[|a| + 1..] == e;
    assert id == a[|prefix|..] && otherId == b[|prefix|..];
    NumberOfDigits(tick);
    NumberOfDigits(otherTick);
  }

  /** Jobs of other names on the queue are left alone. */
  datatype JobName = ReconcileJob | OtherJob

  datatype Job = Job(name: JobName, jobId: string, paymentId: Id, tick: nat, delay: int)

  class BccReconciliationProcessor {
    const reconciliation: BccReconciliationService
    var queue: seq<Job>

    constructor (reconciliation: BccReconciliationService)
      ensures this.reconciliation == reconciliation && queue == []
    {
      this.reconciliation, queue := reconciliation, [];
    }

    /** Ignores a job of another name; else runs one pass and, on a reschedule, queues the next tick under a new id,
        due no earlier than the pass asked for. */
    method Process(job: Job, now: int, dateNow: int, bank: Bank) returns (outcome: Outcome)
      modifies this, reconciliation.paymentRepo
      ensures job.name.OtherJob? ==>
        outcome == Ignored && reconciliation.paymentRepo.rows == old(reconciliation.paymentRepo.rows)
      ensures job.name.ReconcileJob? ==>
        var was := old(Row(reconciliation.paymentRepo.rows, job.paymentId));
        var done := ReconcilePass(reconciliation.config, was, now, bank);
        outcome == done.outcome && Row(reconciliation.paymentRepo.rows, job.paymentId) == done.row
      ensures !outcome.Reschedule? ==> queue == old(queue)
      ensures outcome.Reschedule? ==> |queue| == |old(queue)| + 1 && queue[..|old(queue)|] == old(queue)
      ensures outcome.Reschedule? ==> var next := queue[|old(queue)|];
        && next.name == ReconcileJob && next.jobId == JobId("bcc-reconcile-", job.paymentId, job.tick + 1)
        && next.paymentId == job.paymentId && next.tick == job.tick + 1
        && next.delay >= 0 && dateNow + next.delay == Max(dateNow, outcome.at)
    {
      if job.name == OtherJob { return Ignored; }
      var queried;
      outcome, queried := reconciliation.ReconcileOnce(job.paymentId, now, bank);
      if outcome.Reschedule? {
        var tick := job.tick + 1;
        queue := queue + [Job(ReconcileJob, JobId("bcc-reconcile-", job.paymentId, tick), job.paymentId, tick,
                              Max(0, outcome.at - dateNow))];
      }
    }
  }
}
