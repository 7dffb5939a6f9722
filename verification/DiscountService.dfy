/** The discount repository and service over a mutable table and outbox; every
    method is proved to have the effect of the step it stands for. */
module DiscountServices {
  import opened Options
  import opened Discounts

  /** `custom_discounts` and the outbox, with the repository's statements. */
  class CustomDiscountRepository {
    var rows: map<Id, Discount>
    var outbox: seq<Announcement>
    ghost var seen: set<Id>

    ghost function Contents(): Book
      reads this
    {
      Book(rows, outbox, seen)
    }

    constructor ()
      ensures Contents() == EMPTY
    {
      rows, outbox, seen := map[], [], {};
    }

    method FindById(kg: Id, id: Id) returns (found: Option<Discount>)
      ensures found == Find(Contents(), kg, id)
    {
      found := if id in rows && rows[id].kindergarten == kg then Some(rows[id]) else None;
    }

    /** The conditional update and the read after it; None when no row matched,
        and nothing is left behind when the row reads back badly. */
    method Update(kg: Id, id: Id, patch: TermsPatch, expected: set<Status>) returns (r: Result<Option<Discount>, Error>)
      modifies this`rows
      ensures UpdateRow(old(Contents()), kg, id, patch, expected)
           == if r.Ok? then Ok(Contents()) else Err(r.error)
      ensures r.Err? ==> Contents() == old(Contents())
      ensures r.Ok? ==> r.value == if old(Matches(Contents(), kg, id, expected)) then Find(Contents(), kg, id) else None
    {
      if !Binds(patch) { return Err(OutOfRange); }
      var row := FindById(kg, id);
      if row.None? || row.value.status !in expected { return Ok(None); }
      var d := row.value;
      var updated := d.(terms := Merge(d.terms, patch));
      if !FitsAmount(updated.terms.amount) { return Err(OutOfRange); }
      if !MeetsChecks(updated.terms) { return Err(CheckViolated); }
      var saved := rows;
      rows := rows[id := updated];
      if !rows[id].terms.conditions.wellFormed {
        rows := saved;
        return Err(ConditionsInvalid);
      }
      var refusal := AggregateRefusal(rows[id].terms);
      if refusal.Some? {
        rows := saved;
        return Err(refusal.value);
      }
      r := Ok(Some(updated));
    }

    /** The conditional flip; None when no row matched. */
    method TransitionStatus(kg: Id, id: Id, from: set<Status>, to: Status) returns (flipped: Option<Discount>)
      modifies this`rows
      ensures Contents() == Transition(old(Contents()), kg, id, from, to)
      ensures flipped == if old(Matches(Contents(), kg, id, from)) then Find(Contents(), kg, id) else None
    {
      var row := FindById(kg, id);
      if row.None? || row.value.status !in from { return None; }
      rows := rows[id := row.value.(status := to)];
      flipped := Some(rows[id]);
    }

    /** One slot, if there is room; a step of invoicing when the id was seen. */
    method TryReserveUsage(kg: Id, id: Id) returns (reserved: Result<bool, Error>)
      modifies this`rows
      ensures Reserve(old(Contents()), kg, id) == if reserved.Ok? then Ok(Contents()) else Err(reserved.error)
      ensures reserved.Err? ==> Contents() == old(Contents())
      ensures reserved.Ok? ==> reserved.value == old(CanReserve(Contents(), kg, id))
      ensures id in seen ==> Contents() == Next(old(Contents()), TryReserve(kg, id))
    {
      var row := FindById(kg, id);
      if row.None? || !HasRoom(row.value) { return Ok(false); }
      var d := row.value;
      if d.usedCount == INT_MAX { return Err(OutOfRange); }
      rows := rows[id := d.(usedCount := d.usedCount + 1)];
      reserved := Ok(true);
    }

    method ReleaseUsage(kg: Id, id: Id)
      modifies this`rows
      ensures Contents() == Next(old(Contents()), ReleaseSlot(kg, id))
    {
      var row := FindById(kg, id);
      if row.Some? {
        var used := row.value.usedCount - 1;
        rows := rows[id := row.value.(usedCount := if used > 0 then used else 0)];
      }
    }

    method FindActiveCustomDiscounts(kg: Id, now: int) returns (active: map<Id, Discount>)
      modifies this`seen
      ensures Contents() == Next(old(Contents()), FindActive(kg, now))
      ensures active.Keys == ActiveIds(Contents(), kg, now) && forall id :: id in active ==> active[id] == rows[id]
    {
      active := map id | id in rows && Applies(rows[id], kg, now) :: rows[id];
      seen := seen + active.Keys;
    }

    /** The bulk flip, with the ids it returned. */
    method MarkExpiredBatch(kg: Id, now: int) returns (rowIds: set<Id>)
      modifies this`rows
      ensures Contents() == Expire(old(Contents()), kg, now)
      ensures rowIds == OverdueIds(old(Contents()), kg, now)
    {
      rowIds := set id | id in rows && Overdue(rows[id], kg, now);
      rows := map id | id in rows :: if id in rowIds then rows[id].(status := Expired) else rows[id];
    }
  }

  /** A call's answer and the book it leaves are those of the step: the stored
      row and the step's effect, or the error and the book as it was. */
  predicate Answers(r: Result<Discount, Error>, id: Id, expected: Result<Book, Error>, was: Book, now: Book) {
    match expected
    case Ok(after) => r.Ok? && now == after && id in now.rows && r.value == now.rows[id]
    case Err(e) => r == Err(e) && now == was
  }

  class CustomDiscountService {
    const customDiscounts: CustomDiscountRepository

    constructor (customDiscounts: CustomDiscountRepository)
      ensures this.customDiscounts == customDiscounts
    {
      this.customDiscounts := customDiscounts;
    }

    method Create(kg: Id, id: Id, terms: Terms) returns (r: Result<Discount, Error>)
      modifies customDiscounts
      ensures var was := old(customDiscounts.Contents());
        Answers(r, id, Effect(was, Step.Create(kg, id, terms)), was, customDiscounts.Contents())
    {
      var refusal := AggregateRefusal(terms);
      if refusal.Some? { return Err(refusal.value); }
      if !InRange(terms) { return Err(OutOfRange); }
      if id in customDiscounts.rows { return Err(DuplicateKey); }
      var d := Discount(kg, terms, 0, Draft);
      customDiscounts.rows := customDiscounts.rows[id := d];
      r := Ok(d);
    }

    /** `update` up to its conditional statement: nothing is written. */
    method CheckPatch(kg: Id, id: Id, patch: TermsPatch) returns (refusal: Option<Error>)
      ensures refusal == CheckUpdate(customDiscounts.Contents(), kg, id, patch)
    {
      var existing := customDiscounts.FindById(kg, id);
      if existing.None? { return Some(NotFound); }
      var d := existing.value;
      if d.status != Draft { return Some(StatusInvalid(d.status, "update")); }
      if Revalidates(patch) {
        return AggregateRefusal(Transient(d.terms, patch));
      }
      refusal := None;
    }

    /** `update` from its conditional statement on, whatever happened since the check. */
    method ApplyPatch(kg: Id, id: Id, patch: TermsPatch) returns (r: Result<Discount, Error>)
      modifies customDiscounts
      ensures var was := old(customDiscounts.Contents());
        Answers(r, id, Effect(was, Step.Update(kg, id, patch)), was, customDiscounts.Contents())
    {
      var updated := customDiscounts.Update(kg, id, patch, {Draft});
      if updated.Err? { return Err(updated.error); }
      if updated.value.None? {
        var current := customDiscounts.FindById(kg, id);
        if current.None? { return Err(NotFound); }
        return Err(StatusInvalid(current.value.status, "update"));
      }
      r := Ok(updated.value.value);
    }

    /** Flip and announcement in one transaction; a throwing resolver rolls both back. */
    method Activate(kg: Id, id: Id, targets: Option<set<Id>>) returns (r: Result<Discount, Error>)
      modifies customDiscounts
      ensures var was := old(customDiscounts.Contents());
        Answers(r, id, Effect(was, Step.Activate(kg, id, targets)), was, customDiscounts.Contents())
    {
      var savedRows, savedOutbox := customDiscounts.rows, customDiscounts.outbox;
      var locked := customDiscounts.FindById(kg, id);
      if locked.None? { return Err(NotFound); }
      if locked.value.status != Draft { return Err(StatusInvalid(locked.value.status, "activate")); }
      var flip := customDiscounts.TransitionStatus(kg, id, {Draft}, Active);
      var flipped := flip.value;
      var t := flipped.terms;
      if t.notifyOnActivation && t.notificationTitle.Some? && t.notificationBody.Some? {
        if targets.None? {
          customDiscounts.rows, customDiscounts.outbox := savedRows, savedOutbox;
          return Err(ResolverFailed);
        }
        if targets.value != {} {
          customDiscounts.outbox := customDiscounts.outbox + [
            Announcement(kg, id, t.name, targets.value, t.notificationTitle.value, t.notificationBody.value)];
        }
      }
      r := Ok(flipped);
    }

    method Pause(kg: Id, id: Id) returns (r: Result<Discount, Error>)
      modifies customDiscounts
      ensures var was := old(customDiscounts.Contents());
        Answers(r, id, Effect(was, Step.Pause(kg, id)), was, customDiscounts.Contents())
    {
      r := ConditionalTransition(kg, id, {Active}, Paused, "pause");
    }

    method Resume(kg: Id, id: Id) returns (r: Result<Discount, Error>)
      modifies customDiscounts
      ensures var was := old(customDiscounts.Contents());
        Answers(r, id, Effect(was, Step.Resume(kg, id)), was, customDiscounts.Contents())
    {
      r := ConditionalTransition(kg, id, {Paused}, Active, "resume");
    }

    method Cancel(kg: Id, id: Id) returns (r: Result<Discount, Error>)
      modifies customDiscounts
      ensures var was := old(customDiscounts.Contents());
        Answers(r, id, Effect(was, Step.Cancel(kg, id)), was, customDiscounts.Contents())
    {
      r := ConditionalTransition(kg, id, {Draft, Active, Paused}, Cancelled, "cancel");
    }

    /** A conditional flip, and the error to report when it misses. */
    method ConditionalTransition(kg: Id, id: Id, from: set<Status>, to: Status, operation: string)
      returns (r: Result<Discount, Error>)
      modifies customDiscounts
      ensures var was := old(customDiscounts.Contents());
        Answers(r, id, TransitionCall(was, kg, id, from, to, operation), was, customDiscounts.Contents())
    {
      var flipped := customDiscounts.TransitionStatus(kg, id, from, to);
      if flipped.None? {
        var current := customDiscounts.FindById(kg, id);
        if current.None? { return Err(NotFound); }
        return Err(StatusInvalid(current.value.status, operation));
      }
      r := Ok(flipped.value);
    }

    method ExpireOverdue(kg: Id, now: int) returns (expiredIds: set<Id>)
      modifies customDiscounts
      ensures customDiscounts.Contents() == Next(old(customDiscounts.Contents()), ExpireBatch(kg, now))
      ensures expiredIds == OverdueIds(old(customDiscounts.Contents()), kg, now)
    {
      expiredIds := customDiscounts.MarkExpiredBatch(kg, now);
    }
  }
}
