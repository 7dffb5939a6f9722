/** The nightly expiry job: one transaction per kindergarten, failures isolated. */
module DiscountExpiry {
  import opened Options
  import opened Discounts
  import opened DiscountServices

  datatype Summary = Summary(kindergartensProcessed: nat, discountsExpired: nat, errors: nat)

  datatype Job = Recurring | ManualRun | Unknown

  predicate Distinct(kgs: seq<Id>) { forall i, j :: 0 <= i < j < |kgs| ==> kgs[i] != kgs[j] }

  /** The rows of some kindergartens that are overdue at `now`. */
  function DueIn(b: Book, kgs: set<Id>, now: int): set<Id> {
    set id | id in b.rows && b.rows[id].kindergarten in kgs && Overdue(b.rows[id], b.rows[id].kindergarten, now)
  }

  /** The book once every overdue row of those kindergartens is expired. */
  function ExpiredIn(b: Book, kgs: set<Id>, now: int): Book {
    b.(rows := map id | id in b.rows ::
      if id in DueIn(b, kgs, now) then b.rows[id].(status := Expired) else b.rows[id])
  }

  /** A running or paused discount whose end has come. */
  predicate Ended(d: Discount, now: int) {
    d.status in {Active, Paused} && d.terms.validUntil.Some? && d.terms.validUntil.value <= now
  }

  /** The rows whose status a tick changes. */
  function Changed(b: Book, c: Book): set<Id> {
    set id | id in b.rows && id in c.rows && b.rows[id].status != c.rows[id].status
  }

  /** A row over a tick: it reads expired afterwards exactly when it did before, or
      its kindergarten succeeded and it had ended; no other field changes. */
  predicate RowTicked(d: Discount, e: Discount, succeeded: bool, now: int) {
    && (e.status == Expired <==> d.status == Expired || (succeeded && Ended(d, now)))
    && (e.status != Expired ==> e.status == d.status)
    && e.kindergarten == d.kindergarten && e.terms == d.terms && e.usedCount == d.usedCount
  }

  /** A whole tick, row by row, and the rows it counts: those whose status changed. */
  lemma TickOutcome(b: Book, kgs: set<Id>, now: int)
    ensures ExpiredIn(b, kgs, now).rows.Keys == b.rows.Keys
    ensures forall id :: id in b.rows ==>
      RowTicked(b.rows[id], ExpiredIn(b, kgs, now).rows[id], b.rows[id].kindergarten in kgs, now)
    ensures DueIn(b, kgs, now) == Changed(b, ExpiredIn(b, kgs, now))
    ensures ExpiredIn(b, kgs, now).outbox == b.outbox && ExpiredIn(b, kgs, now).seen == b.seen
  {
  }

  /** The kindergartens whose transaction commits. */
  function Succeeding(kgs: seq<Id>, failing: set<Id>): set<Id> { set kg | kg in kgs && kg !in failing }

  /** All rows over a tick, those of kindergartens not listed or failing untouched. */
  predicate Ticked(was: Book, after: Book, kgIds: seq<Id>, failing: set<Id>, now: int) {
    && after.rows.Keys == was.rows.Keys && after.outbox == was.outbox && after.seen == was.seen
    && forall id :: id in was.rows ==>
         var kg := was.rows[id].kindergarten;
         RowTicked(was.rows[id], after.rows[id], kg in kgIds && kg !in failing, now)
  }

  lemma WholeTick(b: Book, kgIds: seq<Id>, failing: set<Id>, now: int)
    ensures var after := ExpiredIn(b, Succeeding(kgIds, failing), now);
      Ticked(b, after, kgIds, failing, now) && DueIn(b, Succeeding(kgIds, failing), now) == Changed(b, after)
  {
    hide ExpiredIn, DueIn, RowTicked, Changed;
    TickOutcome(b, Succeeding(kgIds, failing), now);
  }

  class DiscountExpireProcessor {
    const customDiscountService: CustomDiscountService

    constructor (customDiscountService: CustomDiscountService)
      ensures this.customDiscountService == customDiscountService
    {
      this.customDiscountService := customDiscountService;
    }

    /** One tick over the unarchived kindergartens, in order; the transactions
        of those in `failing` throw. */
    method Process(job: Job, kgIds: seq<Id>, failing: set<Id>, now: int) returns (summary: Summary)
      requires Distinct(kgIds)
      modifies customDiscountService.customDiscounts
      ensures job.Unknown? ==> summary == Summary(0, 0, 0)
      ensures job.Unknown? ==>
        customDiscountService.customDiscounts.Contents() == old(customDiscountService.customDiscounts.Contents())
      ensures !job.Unknown? ==>
        var was, done := old(customDiscountService.customDiscounts.Contents()), Succeeding(kgIds, failing);
        && customDiscountService.customDiscounts.Contents() == ExpiredIn(was, done, now)
        && summary.discountsExpired == |DueIn(was, done, now)|
        && summary.kindergartensProcessed == |kgIds| == |done| + summary.errors
      ensures !job.Unknown? ==>
        var was := old(customDiscountService.customDiscounts.Contents());
        Ticked(was, customDiscountService.customDiscounts.Contents(), kgIds, failing, now)
        && summary.discountsExpired == |Changed(was, customDiscountService.customDiscounts.Contents())|
    {
      hide DueIn, ExpiredIn, Expire, OverdueIds, Succeeding, Ticked, Changed;
      if job.Unknown? { return Summary(0, 0, 0); }
      var db := customDiscountService.customDiscounts;
      ghost var was := db.Contents();
      var discountsExpired, errors := 0, 0;
      var i := 0;
      NothingYet(was, failing, now);
      while i < |kgIds|
        invariant 0 <= i <= |kgIds|
        invariant db.Contents() == ExpiredIn(was, Succeeding(kgIds[..i], failing), now)
        invariant discountsExpired == |DueIn(was, Succeeding(kgIds[..i], failing), now)|
        invariant i == |Succeeding(kgIds[..i], failing)| + errors
      {
        ghost var done := Succeeding(kgIds[..i], failing);
        SucceedingSnoc(kgIds, i, failing);
        var expired := RunForKindergarten(kgIds[i], kgIds[i] in failing, now);
        if expired.None? {
          errors := errors + 1;
        } else {
          discountsExpired := discountsExpired + |expired.value|;
          OneMore(was, done, kgIds[i], now);
        }
        i := i + 1;
      }
      assert kgIds[..i] == kgIds;
      WholeTick(was, kgIds, failing, now);
      summary := Summary(|kgIds|, discountsExpired, errors);
    }

    /** One kindergarten's transaction; None when it throws and rolls back. */
    method RunForKindergarten(kg: Id, throws: bool, now: int) returns (expiredIds: Option<set<Id>>)
      modifies customDiscountService.customDiscounts
      ensures var was := old(customDiscountService.customDiscounts.Contents());
        && expiredIds == (if throws then None else Some(OverdueIds(was, kg, now)))
        && customDiscountService.customDiscounts.Contents() == if throws then was else Expire(was, kg, now)
    {
      var db := customDiscountService.customDiscounts;
      var savedRows := db.rows;
      var ids := customDiscountService.ExpireOverdue(kg, now);
      if throws {
        db.rows := savedRows;
        return None;
      }
      expiredIds := Some(ids);
    }
  }

  lemma NothingYet(b: Book, failing: set<Id>, now: int)
    ensures Succeeding([], failing) == {}
    ensures DueIn(b, {}, now) == {} && ExpiredIn(b, {}, now) == b
  {
  }

  lemma SucceedingSnoc(kgs: seq<Id>, i: nat, failing: set<Id>)
    requires Distinct(kgs) && i < |kgs|
    ensures var done := Succeeding(kgs[..i], failing);
      kgs[i] !in done && Succeeding(kgs[..i + 1], failing) == if kgs[i] in failing then done else done + {kgs[i]}
  {
    assert kgs[..i + 1] == kgs[..i] + [kgs[i]];
  }

  /** Expiring one more kindergarten adds just its overdue rows. */
  lemma OneMore(b: Book, done: set<Id>, kg: Id, now: int)
    requires kg !in done
    ensures var ids := OverdueIds(ExpiredIn(b, done, now), kg, now);
      && |DueIn(b, done + {kg}, now)| == |DueIn(b, done, now)| + |ids|
      && Expire(ExpiredIn(b, done, now), kg, now) == ExpiredIn(b, done + {kg}, now)
  {
    OneMoreDue(b, done, kg, now);
    var next := Expire(ExpiredIn(b, done, now), kg, now);
    assert next.rows == ExpiredIn(b, done + {kg}, now).rows;
  }

  lemma OneMoreDue(b: Book, done: set<Id>, kg: Id, now: int)
    requires kg !in done
    ensures OverdueIds(ExpiredIn(b, done, now), kg, now) == OverdueIds(b, kg, now)
    ensures |DueIn(b, done + {kg}, now)| == |DueIn(b, done, now)| + |OverdueIds(b, kg, now)|
  {
    assert DueIn(b, done + {kg}, now) == DueIn(b, done, now) + OverdueIds(b, kg, now);
    assert DueIn(b, done, now) !! OverdueIds(b, kg, now);
  }

  /** After a tick nothing is overdue where it succeeded, elsewhere no row has
      changed, and a tick at the same time flips nothing. */
  lemma TickLeavesNothingOverdue(b: Book, kgs: set<Id>, now: int)
    ensures DueIn(ExpiredIn(b, kgs, now), kgs, now) == {}
    ensures ExpiredIn(ExpiredIn(b, kgs, now), kgs, now) == ExpiredIn(b, kgs, now)
    ensures forall id :: id in b.rows && b.rows[id].kindergarten !in kgs ==>
      id in ExpiredIn(b, kgs, now).rows && ExpiredIn(b, kgs, now).rows[id] == b.rows[id]
  {
  }

  /** Ticks may be skipped: the last one expires what the earlier ones would have. */
  lemma LaterTickSubsumes(b: Book, kgs: set<Id>, now: int, later: int)
    requires now <= later
    ensures ExpiredIn(ExpiredIn(b, kgs, now), kgs, later) == ExpiredIn(b, kgs, later)
    ensures DueIn(b, kgs, later) == DueIn(b, kgs, now) + DueIn(ExpiredIn(b, kgs, now), kgs, later)
  {
  }

  /** A paused discount past its end is expired too, though the repository
      contract describes only active rows. */
  lemma PausedRowsExpireToo(b: Book, id: Id, now: int)
    requires id in b.rows && b.rows[id].status.Paused?
    requires b.rows[id].terms.validUntil.Some? && b.rows[id].terms.validUntil.value <= now
    ensures id in Expire(b, b.rows[id].kindergarten, now).rows
    ensures Expire(b, b.rows[id].kindergarten, now).rows[id].status == Expired
  {
  }
}
