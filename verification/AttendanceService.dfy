/** The attendance service step by step: each method writes the tables in the
    order the service does and is proved to do what its call should as a whole. */
module AttendanceServices {
  import opened Options
  import opened CivilCalendar
  import opened AttendanceModel
  import opened TimelineMirror
  import opened DailyStatusView
  import opened RegisterDatabase

  datatype FlowResult = FlowResult(event: Event, dailyStatus: Option<DailyStatus>, entry: Entry)

  class AttendanceService {
    const db: Database
    const audit: AuditService

    constructor (db: Database, audit: AuditService)
      requires audit.db == db
      ensures this.db == db && this.audit == audit
    {
      this.db, this.audit := db, audit;
    }

    method CheckIn(env: Env, childId: Id, caller: Id, at: Option<int>, notes: Option<string>,
                   eventId: Id, entryId: Id) returns (r: Result<FlowResult, Error>)
      requires audit.db == db && db.Valid()
      modifies db
      ensures Answers(r, CheckInCall(old(db.Contents()), env, childId, caller, at, notes, eventId, entryId),
                      old(db.Contents()), db.Contents())
      ensures db.Valid()
      ensures r.Ok? ==> eventId in db.events && entryId in db.timeline
      ensures r.Ok? ==>
        var event := db.events[eventId];
        r.value == FlowResult(event, Lookup(db.statuses, event.DayBucket()), db.timeline[entryId])
    {
      hide Sound, LocalIsoDate;
      ghost var op := RecordCheckIn(env, childId, caller, at, notes, eventId, entryId);
      ghost var was := db.Contents();
      CallKeepsSound(was, op);

      var recordedAt := if at.Some? then at.value else env.now;
      if TooFarAhead(env, recordedAt) { return Err(InvalidTimestamp); }
      if caller !in env.staff { return Err(StaffNotFound); }
      var staff := env.staff[caller];
      if childId !in env.children { return Err(ChildNotFound); }
      if eventId in db.events || entryId in db.timeline { return Err(DuplicateKey); }

      var event := Event(childId, EventType.CheckIn, Manual, Some(staff), None, None, notes, recordedAt, env.now, None);
      db.events := db.events[eventId := event];
      var entry := Entry(childId, CheckInEntry, Content(Some("Check-in"), None, None, None), Some(staff),
                         recordedAt, env.now, Some(eventId));
      db.timeline := db.timeline[entryId := entry];

      var b := Bucket(childId, LocalIsoDate(recordedAt));
      var dailyStatus: Option<DailyStatus>;
      if b !in db.statuses {
        dailyStatus := Some(DailyStatus(Present, None, staff, env.now));
        db.UpsertStatus(b, dailyStatus.value);
      } else {
        var _, current := db.UpdatePresentIfAbsentOrLate(b, staff, env.now);
        dailyStatus := current;
      }
      audit.Record(EventAudit(eventId, Create, caller, staff, None, Some(event), env.now));
      assert db.Contents() == CheckInCall(was, env, childId, caller, at, notes, eventId, entryId).value;
      r := Ok(FlowResult(event, dailyStatus, entry));
    }

    method CheckOut(env: Env, childId: Id, caller: Id, pickupUserId: Option<Id>, opts: CheckOutOpts,
                    eventId: Id, entryId: Id) returns (r: Result<FlowResult, Error>)
      requires audit.db == db && db.Valid()
      modifies db
      ensures Answers(r, CheckOutCall(old(db.Contents()), env, childId, caller, pickupUserId, opts, eventId, entryId),
                      old(db.Contents()), db.Contents())
      ensures db.Valid()
      ensures r.Ok? ==> eventId in db.events && entryId in db.timeline
      ensures r.Ok? ==> r.value == FlowResult(db.events[eventId], None, db.timeline[entryId])
    {
      hide Sound;
      ghost var op := RecordCheckOut(env, childId, caller, pickupUserId, opts, eventId, entryId);
      ghost var was := db.Contents();
      CallKeepsSound(was, op);

      var recordedAt := if opts.recordedAt.Some? then opts.recordedAt.value else env.now;
      if TooFarAhead(env, recordedAt) { return Err(InvalidTimestamp); }
      if caller !in env.staff { return Err(StaffNotFound); }
      var staff := env.staff[caller];
      if childId !in env.children { return Err(ChildNotFound); }
      if opts.pickupRequestId.None? {
        if pickupUserId.None? { return Err(InvalidPickup); }
        if (childId, pickupUserId.value) !in env.pickups { return Err(PickupNotAllowed); }
      }
      if eventId in db.events || entryId in db.timeline { return Err(DuplicateKey); }

      var event := Event(childId, EventType.CheckOut, opts.how, Some(staff), pickupUserId, opts.pickupRequestId,
                         opts.notes, recordedAt, env.now, None);
      db.events := db.events[eventId := event];
      var entry := Entry(childId, CheckOutEntry, Content(Some("Check-out"), None, None, None), Some(staff),
                         recordedAt, env.now, Some(eventId));
      db.timeline := db.timeline[entryId := entry];
      audit.Record(EventAudit(eventId, Create, caller, staff, None, Some(event), env.now));
      assert db.Contents() == CheckOutCall(was, env, childId, caller, pickupUserId, opts, eventId, entryId).value;
      r := Ok(FlowResult(event, None, entry));
    }

    method PatchEvent(env: Env, eventId: Id, caller: Id, patch: EventPatch, opts: PatchOpts, entryId: Id)
      returns (r: Result<Event, Error>)
      requires audit.db == db && db.Valid()
      modifies db
      ensures Answers(r, PatchCall(old(db.Contents()), env, eventId, caller, patch, opts, entryId),
                      old(db.Contents()), db.Contents())
      ensures db.Valid()
      ensures r.Ok? ==> eventId in db.events && r.value == db.events[eventId]
    {
      hide Sound, LocalIsoDate, Settle, SettleAll, Realigned, HasMirror, PatchRefusal;
      ghost var op := Op.PatchEvent(env, eventId, caller, patch, opts, entryId);
      ghost var was := db.Contents();
      CallKeepsSound(was, op);

      var refusal := CheckPatch(env, eventId, caller, patch, opts, entryId);
      if refusal.Some? { return Err(refusal.value); }
      var staff := env.staff[caller];
      var event := db.events[eventId];
      var before := event;
      event := event.ApplyPatch(patch);
      db.events := db.events[eventId := event];
      CascadeTimeline(env, eventId, before, event, entryId);
      RecomputeAffectedDailyStatuses(env, before, event, staff);
      audit.Record(EventAudit(eventId, Update, caller, staff, Some(before), Some(event), env.now));
      assert db.Contents() == PatchCall(was, env, eventId, caller, patch, opts, entryId).value;
      r := Ok(event);
    }

    /** The checks before a correction, in their order; nothing is written. */
    method CheckPatch(env: Env, eventId: Id, caller: Id, patch: EventPatch, opts: PatchOpts, entryId: Id)
      returns (refusal: Option<Error>)
      ensures refusal == PatchRefusal(db.Contents(), env, eventId, caller, patch, opts, entryId)
      ensures refusal.None? ==> caller in env.staff && eventId in db.events && db.events[eventId].Live()
      ensures refusal.None? ==>
        var before := db.events[eventId];
        var flips := before.ApplyPatch(patch).eventType != before.eventType;
        !flips || !HasMirror(db.timeline, eventId) || entryId !in db.timeline
    {
      hide LocalIsoDate, HasMirror;
      if caller !in env.staff { return Some(StaffNotFound); }
      if patch.recordedAt.Set? && TooFarAhead(env, patch.recordedAt.value) { return Some(InvalidTimestamp); }
      if eventId !in db.events || db.events[eventId].deletedAt.Some? { return Some(EventNotFound); }
      var before := db.events[eventId];
      if !opts.allowStructuralCorrection {
        if patch.childId.Set? { return Some(AdminOnly("child_id")); }
        if patch.eventType.Set? { return Some(AdminOnly("event_type")); }
      }
      if !opts.skipEditWindow {
        if LocalIsoDate(before.recordedAt) != LocalIsoDate(env.now) { return Some(EditWindowExpired); }
      }

      var nextChildId := patch.childId.Or(before.childId);
      var nextEventType := patch.eventType.Or(before.eventType);
      var nextPickup := if patch.pickupUserId.Set? then Some(patch.pickupUserId.value) else before.pickupUserId;
      if patch.childId.Set? && patch.childId.value != before.childId {
        if patch.childId.value !in env.children { return Some(ChildNotFound); }
      }
      if patch.pickupUserId.Set? && nextEventType.CheckIn? { return Some(InvalidPickup); }
      if nextEventType.CheckOut? && nextPickup.Some? {
        var pairChanged := nextChildId != before.childId || nextPickup != before.pickupUserId;
        if pairChanged && (nextChildId, nextPickup.value) !in env.pickups { return Some(PickupNotAllowed); }
      }
      if nextEventType != before.eventType {
        var mirror := db.FindBySourceEventId(eventId);
        if mirror.Some? && entryId in db.timeline { return Some(DuplicateKey); }
      }
      refusal := None;
    }

    method DeleteEvent(env: Env, eventId: Id, caller: Id) returns (r: Result<(), Error>)
      requires audit.db == db && db.Valid()
      modifies db
      ensures Answers(r, DeleteCall(old(db.Contents()), env, eventId, caller), old(db.Contents()), db.Contents())
      ensures db.Valid()
    {
      hide Sound, LocalIsoDate, Settle, SettleAll;
      ghost var op := Op.DeleteEvent(env, eventId, caller);
      ghost var was := db.Contents();
      CallKeepsSound(was, op);

      if caller !in env.staff { return Err(StaffNotFound); }
      var staff := env.staff[caller];
      if eventId !in db.events || db.events[eventId].deletedAt.Some? { return Err(EventNotFound); }
      var event := db.events[eventId];
      var before := event;
      event := event.(deletedAt := Some(env.now));
      db.events := db.events[eventId := event];
      var entry := db.FindBySourceEventId(eventId);
      ghost var timeline := db.timeline;
      if entry.Some? {
        db.timeline := db.timeline - {entry.value};
      }
      assert db.timeline == WithoutMirror(timeline, eventId);
      RecomputeDailyStatus(env, before.childId, LocalIsoDate(before.recordedAt), staff);
      audit.Record(EventAudit(eventId, Delete, caller, staff, Some(before), None, env.now));
      assert db.Contents() == DeleteCall(was, env, eventId, caller).value;
      r := Ok(());
    }

    /** Realigns the mirror of a corrected event. */
    method CascadeTimeline(env: Env, eventId: Id, before: Event, after: Event, entryId: Id)
      requires OneMirror(db.timeline)
      requires forall k :: Mirrors(db.timeline, k, eventId) ==> db.timeline[k].recordedBy == after.recordedBy
      requires before.eventType != after.eventType && HasMirror(db.timeline, eventId) ==> entryId !in db.timeline
      modifies db`timeline
      ensures db.timeline == Realigned(old(db.timeline), eventId, before, after, entryId, env.now)
    {
      var found := db.FindBySourceEventId(eventId);
      if found.None? { return; }
      var k := found.value;
      var entry := db.timeline[k];
      var typeFlipped := before.eventType != after.eventType;
      if !typeFlipped {
        if before.childId == after.childId && before.recordedAt == after.recordedAt { return; }
        db.timeline := db.timeline[k := entry.(childId := after.childId, entryTime := after.recordedAt)];
        return;
      }
      db.timeline := db.timeline - {k};
      assert db.timeline == WithoutMirror(old(db.timeline), eventId);
      var isIn := after.eventType.CheckIn?;
      db.timeline := db.timeline[entryId := Entry(
        after.childId, if isIn then CheckInEntry else CheckOutEntry,
        Content(Some(if isIn then "Check-in" else "Check-out"), None, None, None),
        entry.recordedBy, after.recordedAt, env.now, Some(eventId))];
    }

    /** Recomputes the bucket an event left and the one it landed in. */
    method RecomputeAffectedDailyStatuses(env: Env, before: Event, after: Event, staff: Id)
      modifies db`statuses
      ensures db.statuses
           == SettleAll(old(db.statuses), {before.DayBucket(), after.DayBucket()}, db.events, staff, env.now)
    {
      hide LocalIsoDate, Settle, SettleAll, HasLiveCheckIn;
      var buckets := [before.DayBucket()];
      if after.DayBucket() !in buckets { buckets := buckets + [after.DayBucket()]; }
      assert Elements(buckets) == {before.DayBucket(), after.DayBucket()};
      ghost var was := db.statuses;
      var i := 0;
      while i < |buckets|
        invariant 0 <= i <= |buckets|
        invariant db.statuses == SettleInTurn(was, buckets[..i], db.events, staff, env.now)
      {
        RecomputeDailyStatus(env, buckets[i].childId, buckets[i].date, staff);
        assert buckets[..i + 1][..i] == buckets[..i];
        i := i + 1;
      }
      assert buckets[..i] == buckets;
      OrderIsIrrelevant(was, buckets, db.events, staff, env.now);
    }

    /** Re-derives one bucket's row from the live check-ins in the day window. */
    method RecomputeDailyStatus(env: Env, childId: Id, isoDate: string, staff: Id)
      modifies db`statuses
      ensures db.statuses == SettleAll(old(db.statuses), {Bucket(childId, isoDate)}, db.events, staff, env.now)
    {
      hide InDay, SettleAll;
      var b := Bucket(childId, isoDate);
      var live := HasLiveCheckIn(db.events, b);
      hide HasLiveCheckIn;
      ghost var was := db.statuses;
      if live {
        if b !in db.statuses {
          db.UpsertStatus(b, DailyStatus(Present, None, staff, env.now));
        } else {
          var _, _ := db.UpdatePresentIfAbsentOrLate(b, staff, env.now);
        }
      } else if b in db.statuses && db.statuses[b].status.Present? {
        db.UpsertStatus(b, DailyStatus(Absent, db.statuses[b].note, staff, env.now));
      }
      SameLookups(db.statuses, SettleAll(was, {b}, db.events, staff, env.now));
    }

    method SetDailyStatus(env: Env, caller: Id, b: Bucket, status: Intraday, note: Option<string>)
      returns (r: Result<DailyStatus, Error>)
      requires audit.db == db && db.Valid()
      modifies db
      ensures Answers(r, SetDailyStatusCall(old(db.Contents()), env, caller, b, status, note),
                      old(db.Contents()), db.Contents())
      ensures db.Valid()
      ensures r.Ok? ==> Lookup(db.statuses, b) == Some(r.value)
    {
      hide Sound;
      ghost var op := Op.SetDailyStatus(env, caller, b, status, note);
      ghost var was := db.Contents();
      CallKeepsSound(was, op);

      if caller !in env.staff { return Err(StaffNotFound); }
      var staff := env.staff[caller];
      if b.childId !in env.children { return Err(ChildNotFound); }
      var previous := Lookup(db.statuses, b);
      var row := DailyStatus(status, note, staff, env.now);
      db.UpsertStatus(b, row);
      audit.Record(StatusAudit(b, if previous == None then Create else Update, caller, staff, previous, row, env.now));
      assert db.Contents() == SetDailyStatusCall(was, env, caller, b, status, note).value;
      r := Ok(row);
    }
  }
}
