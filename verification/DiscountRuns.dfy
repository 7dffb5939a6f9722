/** What every interleaving of discount steps keeps. */
module DiscountRuns {
  import opened Options
  import opened Discounts

  predicate WithinCap(d: Discount) {
    && 0 <= d.usedCount
    && (d.terms.totalMaxUses.None? || d.usedCount == 0 || d.usedCount <= d.terms.totalMaxUses.value)
  }

  /** A draft is untouched: never used, never seen as active, never announced. */
  predicate RowSound(b: Book, id: Id)
    requires id in b.rows
  {
    var d := b.rows[id];
    && WithinCap(d) && d.usedCount <= INT_MAX && Storable(d.terms)
    && (d.status.Draft? ==> d.usedCount == 0 && id !in b.seen)
  }

  predicate Announced(outbox: seq<Announcement>, id: Id) {
    exists a :: a in outbox && a.discountId == id
  }

  /** Each announcement is of a row that has left draft, once per row. */
  predicate OutboxSound(b: Book) {
    && (forall a :: a in b.outbox ==> a.discountId in b.rows && !b.rows[a.discountId].status.Draft?)
    && (forall i, j :: 0 <= i < j < |b.outbox| ==> b.outbox[i].discountId != b.outbox[j].discountId)
  }

  predicate Sound(b: Book) {
    && (forall id :: id in b.rows ==> RowSound(b, id))
    && b.seen <= b.rows.Keys
    && OutboxSound(b)
  }

  lemma StepKeepsRow(b: Book, s: Step, id: Id)
    requires id in Next(b, s).rows && b.seen <= b.rows.Keys && (id in b.rows ==> RowSound(b, id))
    ensures RowSound(Next(b, s), id)
  {
    hide OutboxSound, Announces, AnnouncementOf, TargetShaped, Merge, InRange, Binds;
    if s.Update? && id in b.rows { HeldExactlyWhen(b.rows[id].terms, s.patch); }
  }

  lemma StepKeepsSeen(b: Book, s: Step)
    requires b.seen <= b.rows.Keys
    ensures Next(b, s).seen <= Next(b, s).rows.Keys
  {
    hide Announces, AnnouncementOf, Acceptable, Merge, HasRoom, AggregateRefusal, HydrationRefusal;
  }

  lemma StepKeepsOutbox(b: Book, s: Step)
    requires OutboxSound(b)
    ensures OutboxSound(Next(b, s))
  {
    hide TargetShaped, Merge, Applies, HasRoom, AggregateRefusal, HydrationRefusal;
  }

  lemma StepKeepsSound(b: Book, s: Step)
    requires Sound(b)
    ensures Sound(Next(b, s))
  {
    hide RowSound, OutboxSound, Next;
    forall id | id in Next(b, s).rows ensures RowSound(Next(b, s), id) { StepKeepsRow(b, s, id); }
    StepKeepsSeen(b, s);
    StepKeepsOutbox(b, s);
  }

  /** In every interleaving the counter stays between zero and the cap, rows
      meet their checks, and announcements are unique. */
  lemma {:induction false} RunsAreSound(steps: seq<Step>)
    ensures Sound(Run(steps))
  {
    hide Sound, Next;
    if steps == [] {
      EmptyIsSound();
    } else {
      RunsAreSound(steps[..|steps| - 1]);
      StepKeepsSound(Run(steps[..|steps| - 1]), steps[|steps| - 1]);
    }
  }

  lemma EmptyIsSound()
    ensures Sound(EMPTY)
  {
  }

  /** The cap is never exceeded: `used_count` is at least zero and at most the
      cap, for every cap that is not negative. */
  lemma CapIsNeverExceeded(steps: seq<Step>, id: Id)
    requires id in Run(steps).rows
    ensures var d := Run(steps).rows[id];
      0 <= d.usedCount && (d.terms.totalMaxUses.Some? && d.terms.totalMaxUses.value >= 0 ==>
        d.usedCount <= d.terms.totalMaxUses.value)
  {
    hide Run;
    RunsAreSound(steps);
    assert RowSound(Run(steps), id);
  }

  // ── What may change between two moments of a run ────────────────────────

  /** How a discount may look later in a run. */
  predicate Later(d: Discount, e: Discount) {
    && e.kindergarten == d.kindergarten
    && (!d.status.Draft? ==> !e.status.Draft? && e.terms == d.terms)
    && (d.status.Cancelled? || d.status.Expired? ==> e.status == d.status)
  }

  predicate Evolves(b: Book, c: Book) {
    && (forall id :: id in b.rows ==> id in c.rows && Later(b.rows[id], c.rows[id]))
    && b.outbox <= c.outbox
    && b.seen <= c.seen
  }

  lemma RowEvolves(b: Book, s: Step, id: Id)
    requires id in b.rows
    ensures id in Next(b, s).rows && Later(b.rows[id], Next(b, s).rows[id])
  {
    hide Announces, AnnouncementOf, Acceptable, Merge, HasRoom, AggregateRefusal, HydrationRefusal, Applies;
  }

  lemma StepEvolves(b: Book, s: Step)
    ensures Evolves(b, Next(b, s))
  {
    hide Announces, AnnouncementOf, Acceptable, Merge, HasRoom, AggregateRefusal, HydrationRefusal, Applies, Later;
    forall id | id in b.rows ensures id in Next(b, s).rows && Later(b.rows[id], Next(b, s).rows[id]) {
      RowEvolves(b, s, id);
    }
  }

  /** From any moment of a run on: no row returns to draft, terms are frozen
      after draft, cancelled and expired are final, nothing is deleted and no
      announcement is withdrawn. */
  lemma {:induction false} RunsEvolve(b: Book, steps: seq<Step>)
    ensures Evolves(b, RunFrom(b, steps))
  {
    hide Next;
    if steps != [] {
      RunsEvolve(b, steps[..|steps| - 1]);
      StepEvolves(RunFrom(b, steps[..|steps| - 1]), steps[|steps| - 1]);
    }
  }

  // ── Announcements ───────────────────────────────────────────────────────

  /** A step flips a draft to active. */
  predicate Flips(b: Book, s: Step) {
    && s.Activate? && s.id in b.rows && b.rows[s.id].status.Draft?
    && s.id in Next(b, s).rows && Next(b, s).rows[s.id].status.Active?
  }

  /** The outbox grows exactly when an activation flips a discount that announces
      itself to some child, and then by that discount's announcement alone. */
  lemma AnnouncedWithTheFlip(b: Book, s: Step)
    ensures var after := Next(b, s);
      after.outbox != b.outbox <==> Flips(b, s) && Announces(b.rows[s.id].terms) && s.targets !in {None, Some({})}
    ensures var after := Next(b, s);
      after.outbox != b.outbox ==>
        after.outbox == b.outbox + [AnnouncementOf(s.kg, s.id, b.rows[s.id].terms, s.targets.value)]
  {
  }

  /** An activation flips the row and files its announcement, if it has one, or
      does nothing at all; a throwing resolver matters only to an announcement. */
  lemma ActivationIsAllOrNothing(b: Book, kg: Id, id: Id, targets: Option<set<Id>>)
    ensures var after := Next(b, Activate(kg, id, targets));
      after == b <==> !Matches(b, kg, id, {Draft}) || (Announces(b.rows[id].terms) && targets.None?)
    ensures var after := Next(b, Activate(kg, id, targets));
      after != b ==>
        && after.rows == b.rows[id := b.rows[id].(status := Active)] && after.seen == b.seen
        && (after.outbox == b.outbox <==> !Announces(b.rows[id].terms) || targets == Some({}))
  {
    if Matches(b, kg, id, {Draft}) { assert b.rows[id := b.rows[id].(status := Active)][id] != b.rows[id]; }
  }

  function Announcements(outbox: seq<Announcement>, id: Id): nat {
    if outbox == [] then 0
    else Announcements(outbox[1..], id) + if outbox[0].discountId == id then 1 else 0
  }

  lemma {:induction false} DistinctAnnouncements(outbox: seq<Announcement>, id: Id)
    requires forall i, j :: 0 <= i < j < |outbox| ==> outbox[i].discountId != outbox[j].discountId
    ensures Announcements(outbox, id) <= 1
    ensures Announcements(outbox, id) == 1 <==> Announced(outbox, id)
  {
    if outbox != [] {
      DistinctAnnouncements(outbox[1..], id);
      if outbox[0].discountId == id {
        assert forall a :: a in outbox[1..] ==> a.discountId != id;
      }
    }
  }

  /** Over any run a discount is announced at most once, and never as a draft. */
  lemma AnnouncedAtMostOnce(steps: seq<Step>, id: Id)
    ensures Announcements(Run(steps).outbox, id) <= 1
    ensures Announcements(Run(steps).outbox, id) == 1 ==> id in Run(steps).rows && !Run(steps).rows[id].status.Draft?
  {
    hide Run;
    RunsAreSound(steps);
    DistinctAnnouncements(Run(steps).outbox, id);
  }

  // ── Slots ───────────────────────────────────────────────────────────────

  /** A reservation that finds a slot and room in the counter. */
  predicate Grants(b: Book, s: Step, id: Id) {
    s.TryReserve? && s.id == id && Enabled(b, s) && CanReserve(b, s.kg, id) && b.rows[id].usedCount != INT_MAX
  }

  /** Reservations granted on a discount over a run. */
  function Granted(steps: seq<Step>, id: Id): nat {
    if steps == [] then 0
    else
      var b, s := Run(steps[..|steps| - 1]), steps[|steps| - 1];
      Granted(steps[..|steps| - 1], id)
      + if Grants(b, s, id) then 1 else 0
  }

  /** Releases that found a slot to give back. */
  function Returned(steps: seq<Step>, id: Id): nat {
    if steps == [] then 0
    else
      var b, s := Run(steps[..|steps| - 1]), steps[|steps| - 1];
      Returned(steps[..|steps| - 1], id)
      + if s.ReleaseSlot? && s.id == id && Find(b, s.kg, id).Some? && b.rows[id].usedCount > 0 then 1 else 0
  }

  lemma UsedAfterStep(b: Book, s: Step, id: Id)
    requires Sound(b) && id in Next(b, s).rows
    ensures Next(b, s).rows[id].usedCount == (if id in b.rows then b.rows[id].usedCount else 0)
      + (if Grants(b, s, id) then 1 else 0)
      - (if s.ReleaseSlot? && s.id == id && Find(b, s.kg, id).Some? && b.rows[id].usedCount > 0 then 1 else 0)
  {
    hide OutboxSound, Announces, AnnouncementOf, Merge, InRange, Binds, Storable, HydrationRefusal, AggregateRefusal;
    assert id in b.rows ==> RowSound(b, id);
  }

  /** The counter is the slots granted less the slots given back. */
  lemma {:induction false} UsedIsGrantedLessReturned(steps: seq<Step>, id: Id)
    ensures id in Run(steps).rows ==> Run(steps).rows[id].usedCount == Granted(steps, id) - Returned(steps, id)
    ensures id !in Run(steps).rows ==> Granted(steps, id) == 0 == Returned(steps, id)
  {
    hide Next;
    if steps != [] {
      var before, s := steps[..|steps| - 1], steps[|steps| - 1];
      UsedIsGrantedLessReturned(before, id);
      RunsAreSound(before);
      StepEvolves(Run(before), s);
      if id in Run(steps).rows { UsedAfterStep(Run(before), s, id); }
    }
  }

  // ── Tenants ─────────────────────────────────────────────────────────────

  /** Steps of other kindergartens leave a kindergarten's rows alone. */
  lemma {:induction false} OtherTenantsUntouched(b: Book, steps: seq<Step>, id: Id)
    requires id in b.rows && forall s :: s in steps ==> s.kg != b.rows[id].kindergarten
    ensures id in RunFrom(b, steps).rows && RunFrom(b, steps).rows[id] == b.rows[id]
  {
    hide OutboxSound, Announces, AnnouncementOf, Merge, InRange, Binds, HydrationRefusal, AggregateRefusal, HasRoom;
    if steps != [] {
      OtherTenantsUntouched(b, steps[..|steps| - 1], id);
      var s := steps[|steps| - 1];
      assert s in steps;
    }
  }

  // ── Updates ─────────────────────────────────────────────────────────────

  predicate AllStorable(b: Book) { forall id :: id in b.rows ==> Storable(b.rows[id].terms) }

  /** In every interleaving, updates that overtake each other included, each
      stored row is one the columns hold and the aggregate accepts: an update
      that would store another reads it back and undoes itself. */
  lemma StoredRowsAreAcceptable(steps: seq<Step>)
    ensures AllStorable(Run(steps))
  {
    hide Run;
    RunsAreSound(steps);
    assert forall id :: id in Run(steps).rows ==> RowSound(Run(steps), id);
  }

  /** An update whose check passed lands, with nothing in between, exactly when
      the priority it leaves is not negative and the columns hold the merged
      terms: the check looks at all else. */
  lemma CheckedUpdateLandsExactlyWhen(b: Book, kg: Id, id: Id, p: TermsPatch)
    requires AllStorable(b) && CheckUpdate(b, kg, id, p).None?
    ensures var merged := Merge(b.rows[id].terms, p);
      ApplyUpdate(b, kg, id, p).Ok? <==> merged.priority >= 0 && InRange(merged)
  {
    hide ApplyUpdate, CheckUpdate, TargetShaped, InRange;
    CheckedTransient(b, kg, id, p);
    LandsExactlyWhen(b, kg, id, p);
    var t, m := b.rows[id].terms, Merge(b.rows[id].terms, p);
    ShapeReads(m, Transient(t, p));
  }

  /** An update lands exactly on a draft whose merged terms can be stored. */
  lemma LandsExactlyWhen(b: Book, kg: Id, id: Id, p: TermsPatch)
    requires AllStorable(b)
    ensures ApplyUpdate(b, kg, id, p).Ok? <==>
      Matches(b, kg, id, {Draft}) && Storable(Merge(b.rows[id].terms, p))
  {
    hide Acceptable, MeetsChecks, FitsInt, FitsTimestamp, FitsAmount;
    if Matches(b, kg, id, {Draft}) {
      HeldExactlyWhen(b.rows[id].terms, p);
      AcceptableMeetsChecks(Merge(b.rows[id].terms, p));
    }
  }

  lemma AcceptableMeetsChecks(t: Terms)
    ensures Acceptable(t) ==> MeetsChecks(t)
  {
  }

  lemma HeldExactlyWhen(t: Terms, p: TermsPatch)
    requires InRange(t)
    ensures InRange(Merge(t, p)) <==> Binds(p) && FitsAmount(Merge(t, p).amount)
  {
    hide FitsInt, FitsTimestamp, FitsAmount;
  }

  /** What a passed check knows: the transient terms are acceptable, also when
      the patch asked for no validation. */
  lemma CheckedTransient(b: Book, kg: Id, id: Id, p: TermsPatch)
    requires AllStorable(b) && CheckUpdate(b, kg, id, p).None?
    ensures Matches(b, kg, id, {Draft}) && Acceptable(Transient(b.rows[id].terms, p))
  {
    hide InRange;
    var t := b.rows[id].terms;
    if !Revalidates(p) { ShapeReads(t, Transient(t, p)); }
  }

  const NOTHING: TermsPatch := TermsPatch(Keep, Keep, Keep, Keep, Keep, Keep, Keep, Keep, Keep, Keep, Keep, Keep,
                                          Keep, Keep, Keep, Keep)

  /** The check lets a cap through that no integer column holds, and the
      statement throws: on any draft, for any cap past the range. */
  lemma OversizedCapPassesTheCheck(b: Book, kg: Id, id: Id, cap: int)
    requires Matches(b, kg, id, {Draft}) && cap > INT_MAX
    ensures var p := NOTHING.(totalMaxUses := Set(Some(cap)));
      CheckUpdate(b, kg, id, p).None? && ApplyUpdate(b, kg, id, p) == Err(OutOfRange)
  {
  }

  /** So does an amount that the aggregate accepts and the column does not hold. */
  lemma OversizedAmountPassesTheCheck(b: Book, kg: Id, id: Id, amount: int)
    requires AllStorable(b) && Matches(b, kg, id, {Draft}) && amount > AMOUNT_MAX
    ensures var p := NOTHING.(amount := Set(amount));
      CheckUpdate(b, kg, id, p).None? && ApplyUpdate(b, kg, id, p) == Err(OutOfRange)
  {
    var t := b.rows[id].terms;
    ShapeReads(t, Transient(t, NOTHING.(amount := Set(amount))));
  }

  /** A cap of three thousand million, on a discount just drawn up. */
  lemma CapOfThreeThousandMillion()
    ensures var b := Next(EMPTY, Create("kg", "d", Capped(1)));
      var p := NOTHING.(totalMaxUses := Set(Some(3_000_000_000)));
      CheckUpdate(b, "kg", "d", p).None? && ApplyUpdate(b, "kg", "d", p) == Err(OutOfRange)
  {
    OversizedCapPassesTheCheck(Next(EMPTY, Create("kg", "d", Capped(1))), "kg", "d", 3_000_000_000);
  }

  lemma ShapeReads(t: Terms, u: Terms)
    requires t.targetType == u.targetType && t.targetIds == u.targetIds
    ensures TargetShaped(t) == TargetShaped(u)
  {
  }

  // ── The cap is tight, and the guard on it needed ────────────────────────

  function Capped(cap: nat): Terms {
    Terms("Sibling", None, "percent", 1000, Conditions("{}", true), Everyone, None, 0, None, None, Some(cap), 100,
          false, false, None, None)
  }

  /** A discount put up with a cap and reserved some times. */
  function UseUp(cap: nat, uses: nat): seq<Step> {
    if uses == 0 then [Create("kg", "d", Capped(cap)), Activate("kg", "d", None), FindActive("kg", 0)]
    else UseUp(cap, uses - 1) + [TryReserve("kg", "d")]
  }

  /** Every cap the column holds can be used in full. */
  lemma {:induction false} CapIsReached(cap: nat, uses: nat)
    requires uses <= cap <= INT_MAX
    ensures Run(UseUp(cap, uses)).rows == map["d" := Discount("kg", Capped(cap), uses, Active)]
    ensures "d" in Run(UseUp(cap, uses)).seen
  {
    hide Run, Next;
    if uses == 0 {
      PutUpRun(cap);
    } else {
      CapIsReached(cap, uses - 1);
      RunSnoc(UseUp(cap, uses - 1), TryReserve("kg", "d"));
      OneMoreUse(Run(UseUp(cap, uses - 1)), cap, uses - 1);
    }
  }

  lemma OneMoreUse(b: Book, cap: nat, uses: nat)
    requires b.rows == map["d" := Discount("kg", Capped(cap), uses, Active)] && "d" in b.seen
    requires uses < cap <= INT_MAX
    ensures var after := Next(b, TryReserve("kg", "d"));
      after.rows == map["d" := Discount("kg", Capped(cap), uses + 1, Active)] && after.seen == b.seen
  {
  }

  lemma PutUpRun(cap: nat)
    requires cap <= INT_MAX
    ensures Run(UseUp(cap, 0)).rows == map["d" := Discount("kg", Capped(cap), 0, Active)]
    ensures "d" in Run(UseUp(cap, 0)).seen
  {
    hide Next, Capped;
    var s := UseUp(cap, 0);
    RunSnoc([], s[0]);
    RunSnoc([s[0]], s[1]);
    RunSnoc([s[0], s[1]], s[2]);
    assert [] + [s[0]] == [s[0]] && [s[0]] + [s[1]] == [s[0], s[1]] && [s[0], s[1]] + [s[2]] == s;
    PutUp(cap);
  }

  lemma RunSnoc(steps: seq<Step>, s: Step)
    ensures Run(steps + [s]) == Next(Run(steps), s)
  {
    assert (steps + [s])[..|steps|] == steps;
  }

  lemma PutUp(cap: nat)
    requires cap <= INT_MAX
    ensures var b := Next(Next(EMPTY, Create("kg", "d", Capped(cap))), Activate("kg", "d", None));
      var seen := Next(b, FindActive("kg", 0));
      seen.rows == map["d" := Discount("kg", Capped(cap), 0, Active)] && "d" in seen.seen
  {
    var b := Next(Next(EMPTY, Create("kg", "d", Capped(cap))), Activate("kg", "d", None));
    assert b.rows == map["d" := Discount("kg", Capped(cap), 0, Active)];
    assert "d" in ActiveIds(b, "kg", 0);
  }

  /** Without the draft guard an update that lands breaks the cap exactly when
      it sets one, not negative, below the uses the row already has. */
  lemma UnguardedCapEdit(b: Book, kg: Id, id: Id, p: TermsPatch)
    requires Sound(b) && Matches(b, kg, id, ANY_STATUS) && UpdateRow(b, kg, id, p, ANY_STATUS).Ok?
    requires p.totalMaxUses.Set? && p.totalMaxUses.value.Some? && p.totalMaxUses.value.value >= 0
    ensures var after := UpdateRow(b, kg, id, p, ANY_STATUS).value;
      id in after.rows && (WithinCap(after.rows[id]) <==> b.rows[id].usedCount <= p.totalMaxUses.value.value)
  {
    assert RowSound(b, id);
  }
}
