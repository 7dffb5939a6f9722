/** What each discount step is for, in the fields of the rows it leaves. */
module DiscountOutcomes {
  import opened Options
  import opened Refusals
  import opened Discounts
  import opened DiscountExpiry

  /** The row of this kindergarten under this id, looked up by hand. */
  predicate Has(b: Book, kg: Id, id: Id) { id in b.rows && b.rows[id].kindergarten == kg }

  /** Only one row of the book differs, and nothing else. */
  predicate OnlyRow(b: Book, c: Book, id: Id) {
    && c.rows.Keys == b.rows.Keys + {id} && (forall x :: x in b.rows && x != id ==> c.rows[x] == b.rows[x])
    && c.outbox == b.outbox && c.seen == b.seen
  }

  /** Only the status of one row differs. */
  predicate Moved(b: Book, c: Book, id: Id, to: Status) {
    && id in b.rows && OnlyRow(b, c, id) && c.rows[id].status == to
    && c.rows[id].kindergarten == b.rows[id].kindergarten
    && c.rows[id].terms == b.rows[id].terms && c.rows[id].usedCount == b.rows[id].usedCount
  }

  function Misses(b: Book, kg: Id, id: Id, from: set<Status>, operation: string): Refusal<Error> {
    When(!Has(b, kg, id), NotFound)
    .Or(When(Has(b, kg, id) && b.rows[id].status !in from,
             StatusInvalid(if id in b.rows then b.rows[id].status else Draft, operation)))
  }

  // ── The status machine ──────────────────────────────────────────────────

  lemma PauseOutcome(b: Book, kg: Id, id: Id)
    ensures Of(Effect(b, Pause(kg, id))) == Misses(b, kg, id, {Active}, "pause")
    ensures Effect(b, Pause(kg, id)).Ok? ==> Moved(b, Next(b, Pause(kg, id)), id, Paused)
  {
  }

  lemma ResumeOutcome(b: Book, kg: Id, id: Id)
    ensures Of(Effect(b, Resume(kg, id))) == Misses(b, kg, id, {Paused}, "resume")
    ensures Effect(b, Resume(kg, id)).Ok? ==> Moved(b, Next(b, Resume(kg, id)), id, Active)
  {
  }

  lemma CancelOutcome(b: Book, kg: Id, id: Id)
    ensures Of(Effect(b, Cancel(kg, id))) == Misses(b, kg, id, {Draft, Active, Paused}, "cancel")
    ensures Effect(b, Cancel(kg, id)).Ok? ==> Moved(b, Next(b, Cancel(kg, id)), id, Cancelled)
  {
  }

  /** Pausing and resuming undo each other. */
  lemma ResumeUndoesPause(b: Book, kg: Id, id: Id)
    requires Has(b, kg, id) && b.rows[id].status == Active
    ensures Next(Next(b, Pause(kg, id)), Resume(kg, id)) == b
  {
    var paused := Next(b, Pause(kg, id));
    assert Next(paused, Resume(kg, id)).rows == b.rows;
  }

  /** Activation flips a draft of the kindergarten, and announces it once, to the
      children resolved, if it is to be announced, has both texts and somebody
      to reach. */
  lemma ActivateOutcome(b: Book, kg: Id, id: Id, targets: Option<set<Id>>)
    ensures var ann := id in b.rows && b.rows[id].terms.notifyOnActivation
        && b.rows[id].terms.notificationTitle.Some? && b.rows[id].terms.notificationBody.Some?;
      Of(Effect(b, Activate(kg, id, targets)))
        == Misses(b, kg, id, {Draft}, "activate").Or(When(ann && targets.None?, ResolverFailed))
    ensures Effect(b, Activate(kg, id, targets)).Ok? ==>
      var c := Next(b, Activate(kg, id, targets));
      Moved(b, c.(outbox := b.outbox), id, Active)
    ensures Effect(b, Activate(kg, id, targets)).Ok? ==>
      var t := b.rows[id].terms;
      var told := t.notifyOnActivation && t.notificationTitle.Some? && t.notificationBody.Some? && targets != Some({});
      Next(b, Activate(kg, id, targets)).outbox == b.outbox
        + if !told then [] else
            [Announcement(kg, id, t.name, targets.value, t.notificationTitle.value, t.notificationBody.value)]
  {
  }

  // ── Drawing up and editing ──────────────────────────────────────────────

  /** The aggregate's errors, in order. */
  lemma AggregateErrors(t: Terms)
    ensures OfOption(AggregateRefusal(t)) ==
      When(t.amount <= 0, AmountInvalid)
      .Or(When(t.validUntil.Some? && t.validUntil.value <= t.validFrom, ValidityInvalid))
      .Or(When(t.priority < 0, PriorityInvalid))
      .Or(When(t.targetType.Everyone? && t.targetIds !in {None, Some([])}, TargetInvalid("target_ids_must_be_empty")))
      .Or(When(t.targetType in {Groups, Children, TariffTypes} && t.targetIds in {None, Some([])},
               TargetInvalid("target_ids_required")))
      .Or(When(!t.conditions.wellFormed, ConditionsInvalid))
  {
  }

  /** A new discount is a draft with the given terms and no uses. */
  lemma CreateOutcome(b: Book, kg: Id, id: Id, t: Terms)
    ensures Of(Effect(b, Create(kg, id, t))) ==
      OfOption(AggregateRefusal(t)).Or(When(!InRange(t), OutOfRange)).Or(When(id in b.rows, DuplicateKey))
    ensures Effect(b, Create(kg, id, t)).Ok? ==>
      var c := Next(b, Create(kg, id, t));
      OnlyRow(b, c, id) && c.rows[id] == Discount(kg, t, 0, Draft)
  {
    hide InRange;
  }

  function Patched<T>(p: Patch<T>, was: T): T { if p.Set? then p.value else was }

  /** An update sets the terms its patch sets and leaves the others, and neither
      status, counter nor kindergarten ever. */
  lemma UpdateOutcome(b: Book, kg: Id, id: Id, p: TermsPatch)
    requires Effect(b, Update(kg, id, p)).Ok?
    ensures Has(b, kg, id) && b.rows[id].status == Draft
    ensures var c := Next(b, Update(kg, id, p));
      && OnlyRow(b, c, id) && c.rows[id].kindergarten == kg && c.rows[id].status == Draft
      && c.rows[id].usedCount == b.rows[id].usedCount
    ensures var t, u := b.rows[id].terms, Next(b, Update(kg, id, p)).rows[id].terms;
      && u.name == Patched(p.name, t.name) && u.description == Patched(p.description, t.description)
      && u.discountType == Patched(p.discountType, t.discountType) && u.amount == Patched(p.amount, t.amount)
      && u.conditions == Patched(p.conditions, t.conditions) && u.targetType == Patched(p.targetType, t.targetType)
      && u.targetIds == Patched(p.targetIds, t.targetIds) && u.validFrom == Patched(p.validFrom, t.validFrom)
      && u.validUntil == Patched(p.validUntil, t.validUntil)
      && u.maxUsesPerChild == Patched(p.maxUsesPerChild, t.maxUsesPerChild)
      && u.totalMaxUses == Patched(p.totalMaxUses, t.totalMaxUses) && u.priority == Patched(p.priority, t.priority)
      && u.stackable == Patched(p.stackable, t.stackable)
      && u.notifyOnActivation == Patched(p.notifyOnActivation, t.notifyOnActivation)
      && u.notificationTitle == Patched(p.notificationTitle, t.notificationTitle)
      && u.notificationBody == Patched(p.notificationBody, t.notificationBody)
  {
    hide InRange, Binds, HydrationRefusal;
  }

  /** An update that does not find its draft reports the row as it is. */
  lemma UpdateMisses(b: Book, kg: Id, id: Id, p: TermsPatch)
    requires Binds(p) && !(Has(b, kg, id) && b.rows[id].status == Draft)
    ensures Of(Effect(b, Update(kg, id, p))) == Misses(b, kg, id, {Draft}, "update")
  {
    hide Binds;
  }

  /** The errors of an update that finds its draft: what the columns cannot take,
      what the table's checks refuse, then what cannot be read back. */
  lemma UpdateErrors(b: Book, kg: Id, id: Id, p: TermsPatch)
    requires Has(b, kg, id) && b.rows[id].status == Draft
    ensures var t := Merge(b.rows[id].terms, p);
      Of(Effect(b, Update(kg, id, p))) ==
        When(!Binds(p) || t.amount > 9_999_999_999 || t.amount < -9_999_999_999, OutOfRange)
        .Or(When(t.amount <= 0 || t.priority < 0 || (t.validUntil.Some? && t.validUntil.value <= t.validFrom),
                 CheckViolated))
        .Or(When(!t.conditions.wellFormed, ConditionsInvalid))
        .Or(OfOption(AggregateRefusal(t)))
  {
    hide Binds, Merge;
  }

  /** The check before an update: a draft of the kindergarten, and an aggregate
      that accepts what the patch makes of it, but for the priority, the caps
      and the announcement, which it does not look at. */
  lemma CheckOutcome(b: Book, kg: Id, id: Id, p: TermsPatch)
    ensures !(Has(b, kg, id) && b.rows[id].status == Draft) ==>
      OfOption(CheckUpdate(b, kg, id, p)) == Misses(b, kg, id, {Draft}, "update")
    ensures Has(b, kg, id) && b.rows[id].status == Draft ==>
      var seen := p.(maxUsesPerChild := Keep, totalMaxUses := Keep, priority := Keep, stackable := Keep,
                     notifyOnActivation := Keep, notificationTitle := Keep, notificationBody := Keep);
      var looks := p.conditions != Keep || p.targetType != Keep || p.targetIds != Keep || p.amount != Keep
        || p.validFrom != Keep || p.validUntil != Keep;
      CheckUpdate(b, kg, id, p) == if looks then AggregateRefusal(Merge(b.rows[id].terms, seen)) else None
  {
    hide AggregateRefusal;
    if Has(b, kg, id) {
      var seen := p.(maxUsesPerChild := Keep, totalMaxUses := Keep, priority := Keep, stackable := Keep,
                     notifyOnActivation := Keep, notificationTitle := Keep, notificationBody := Keep);
      assert Transient(b.rows[id].terms, p) == Merge(b.rows[id].terms, seen);
    }
  }

  // ── Slots and windows ───────────────────────────────────────────────────

  /** A slot is taken exactly when the row is the kindergarten's and below its cap. */
  lemma ReserveOutcome(b: Book, kg: Id, id: Id)
    ensures var free := Has(b, kg, id)
        && (b.rows[id].terms.totalMaxUses.None? || b.rows[id].usedCount < b.rows[id].terms.totalMaxUses.value);
      && Of(Reserve(b, kg, id)) == When(free && b.rows[id].usedCount == 2_147_483_647, OutOfRange)
      && (Reserve(b, kg, id).Ok? ==>
            var c := Reserve(b, kg, id).value;
            if !free then c == b
            else OnlyRow(b, c, id) && c.rows[id] == b.rows[id].(usedCount := b.rows[id].usedCount + 1))
  {
  }

  lemma ReleaseOutcome(b: Book, kg: Id, id: Id)
    ensures var c := Release(b, kg, id);
      if !Has(b, kg, id) then c == b
      else
        && OnlyRow(b, c, id)
        && c.rows[id] == b.rows[id].(usedCount := if b.rows[id].usedCount >= 1 then b.rows[id].usedCount - 1 else 0)
  {
  }

  /** The discounts invoicing is given: the kindergarten's active ones that have
      begun and not ended. */
  lemma ActiveOutcome(b: Book, kg: Id, now: int, id: Id)
    ensures id in ActiveIds(b, kg, now) <==>
      && Has(b, kg, id) && b.rows[id].status == Active && b.rows[id].terms.validFrom <= now
      && (b.rows[id].terms.validUntil.Some? ==> now < b.rows[id].terms.validUntil.value)
    ensures Next(b, FindActive(kg, now)) == b.(seen := b.seen + ActiveIds(b, kg, now))
  {
  }

  // ── Expiry ──────────────────────────────────────────────────────────────

  /** One kindergarten's expiry: a row of it reads expired afterwards exactly when
      it did before or had ended; no other row and no other field changes. */
  lemma ExpireOutcome(b: Book, kg: Id, now: int, id: Id)
    requires id in b.rows
    ensures Expire(b, kg, now).rows.Keys == b.rows.Keys
    ensures RowTicked(b.rows[id], Expire(b, kg, now).rows[id], b.rows[id].kindergarten == kg, now)
    ensures id in OverdueIds(b, kg, now) <==> Expire(b, kg, now).rows[id].status != b.rows[id].status
    ensures Expire(b, kg, now).outbox == b.outbox && Expire(b, kg, now).seen == b.seen
  {
  }

  /** The kindergartens that succeed are those listed whose transaction commits. */
  lemma SucceedingOutcome(kgs: seq<Id>, failing: set<Id>, kg: Id)
    ensures kg in Succeeding(kgs, failing) <==> kg in kgs && kg !in failing
  {
  }

  /** The ranges of the columns, in figures: integer, numeric(10,2), timestamptz. */
  lemma RangeOutcome(t: Terms)
    ensures InRange(t) <==>
      && -9_999_999_999 <= t.amount <= 9_999_999_999
      && -2_147_483_648 <= t.priority <= 2_147_483_647
      && (t.maxUsesPerChild.Some? ==> -2_147_483_648 <= t.maxUsesPerChild.value <= 2_147_483_647)
      && (t.totalMaxUses.Some? ==> -2_147_483_648 <= t.totalMaxUses.value <= 2_147_483_647)
      && -210_866_803_200_000 <= t.validFrom < 9_224_318_016_000_000
      && (t.validUntil.Some? ==> -210_866_803_200_000 <= t.validUntil.value < 9_224_318_016_000_000)
  {
  }
}
