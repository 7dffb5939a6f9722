/** What each attendance and timeline call is for, in the fields of the rows it
    leaves: when it is refused and with which error, which rows it writes and
    with which values, and that it writes nothing else. */
module AttendanceOutcomes {
  import opened Options
  import opened Refusals
  import opened CivilCalendar
  import opened AttendanceModel
  import opened DailyStatusView

  const FIVE_MINUTES: int := 300_000

  /** Only one row of a table differs. */
  predicate OnlyRow<K, V(==)>(was: map<K, V>, now: map<K, V>, k: K) {
    now.Keys == was.Keys + {k} && forall x :: x in was && x != k ==> now[x] == was[x]
  }

  /** One audit row appended, of this event, by this caller, at this time. */
  predicate Logged(was: Tables, now: Tables, id: Id, action: Action, caller: Id, env: Env,
                   before: Option<Event>, after: Option<Event>) {
    && caller in env.staff && |now.audit| == |was.audit| + 1 && now.audit[..|was.audit|] == was.audit
    && now.audit[|was.audit|] == EventAudit(id, action, caller, env.staff[caller], before, after, env.now)
  }

  // ── Check-in ────────────────────────────────────────────────────────────

  lemma CheckInRefusal(t: Tables, env: Env, childId: Id, caller: Id, at: Option<int>, notes: Option<string>,
                       eventId: Id, entryId: Id)
    ensures Of(CheckInCall(t, env, childId, caller, at, notes, eventId, entryId)) ==
      When(at.Some? && at.value > env.now + FIVE_MINUTES, InvalidTimestamp)
      .Or(When(caller !in env.staff, StaffNotFound))
      .Or(When(childId !in env.children, ChildNotFound))
      .Or(When(eventId in t.events || entryId in t.timeline, DuplicateKey))
  {
    hide LocalIsoDate, Settle, MirrorEntry;
  }

  /** A check-in leaves one event, its mirror, one log row, and its bucket lifted
      to present unless an operator had set something else. */
  lemma CheckInLeaves(t: Tables, env: Env, childId: Id, caller: Id, at: Option<int>, notes: Option<string>,
                      eventId: Id, entryId: Id)
    requires CheckInCall(t, env, childId, caller, at, notes, eventId, entryId).Ok?
    ensures var after := CheckInCall(t, env, childId, caller, at, notes, eventId, entryId).value;
      var time := if at.Some? then at.value else env.now;
      && caller in env.staff && OnlyRow(t.events, after.events, eventId) && OnlyRow(t.timeline, after.timeline, entryId)
      && after.events[eventId].childId == childId && after.events[eventId].eventType.CheckIn?
      && after.events[eventId].how == Manual && after.events[eventId].recordedBy == Some(env.staff[caller])
      && after.events[eventId].pickupUserId == None && after.events[eventId].pickupRequestId == None
      && after.events[eventId].notes == notes && after.events[eventId].recordedAt == time
      && after.events[eventId].createdAt == env.now && after.events[eventId].deletedAt == None
      && after.timeline[entryId] == Entry(childId, CheckInEntry, Content(Some("Check-in"), None, None, None),
                                          Some(env.staff[caller]), time, env.now, Some(eventId))
      && Logged(t, after, eventId, Create, caller, env, None, Some(after.events[eventId]))
    ensures var after := CheckInCall(t, env, childId, caller, at, notes, eventId, entryId).value;
      var b := Bucket(childId, LocalIsoDate(if at.Some? then at.value else env.now));
      && OnlyRow(t.statuses, after.statuses, b)
      && Lifted(Lookup(t.statuses, b), after.statuses[b], env.staff[caller], env.now)
  {
    hide LocalIsoDate;
  }

  /** A row a live check-in has been counted for. */
  predicate Lifted(was: Option<DailyStatus>, now: DailyStatus, staff: Id, at: int) {
    match was
    case None => now == DailyStatus(Present, None, staff, at)
    case Some(row) =>
      if row.status in {Absent, Late}
      then now.status == Present && now.note == row.note && now.setBy == staff && now.updatedAt == at
      else now == row
  }

  // ── Check-out ───────────────────────────────────────────────────────────

  lemma CheckOutRefusal(t: Tables, env: Env, childId: Id, caller: Id, pickup: Option<Id>, opts: CheckOutOpts,
                        eventId: Id, entryId: Id)
    ensures Of(CheckOutCall(t, env, childId, caller, pickup, opts, eventId, entryId)) ==
      When(opts.recordedAt.Some? && opts.recordedAt.value > env.now + FIVE_MINUTES, InvalidTimestamp)
      .Or(When(caller !in env.staff, StaffNotFound))
      .Or(When(childId !in env.children, ChildNotFound))
      .Or(When(opts.pickupRequestId.None? && pickup.None?, InvalidPickup))
      .Or(When(opts.pickupRequestId.None? && pickup.Some? && (childId, pickup.value) !in env.pickups, PickupNotAllowed))
      .Or(When(eventId in t.events || entryId in t.timeline, DuplicateKey))
  {
    hide MirrorEntry;
  }

  /** A check-out leaves one event, its mirror and one log row, and no status. */
  lemma CheckOutLeaves(t: Tables, env: Env, childId: Id, caller: Id, pickup: Option<Id>, opts: CheckOutOpts,
                       eventId: Id, entryId: Id)
    requires CheckOutCall(t, env, childId, caller, pickup, opts, eventId, entryId).Ok?
    ensures var after := CheckOutCall(t, env, childId, caller, pickup, opts, eventId, entryId).value;
      var time := if opts.recordedAt.Some? then opts.recordedAt.value else env.now;
      && caller in env.staff && OnlyRow(t.events, after.events, eventId) && OnlyRow(t.timeline, after.timeline, entryId)
      && after.events[eventId].childId == childId && after.events[eventId].eventType.CheckOut?
      && after.events[eventId].how == opts.how && after.events[eventId].recordedBy == Some(env.staff[caller])
      && after.events[eventId].pickupUserId == pickup
      && after.events[eventId].pickupRequestId == opts.pickupRequestId
      && after.events[eventId].notes == opts.notes && after.events[eventId].recordedAt == time
      && after.events[eventId].createdAt == env.now && after.events[eventId].deletedAt == None
      && after.timeline[entryId] == Entry(childId, CheckOutEntry, Content(Some("Check-out"), None, None, None),
                                          Some(env.staff[caller]), time, env.now, Some(eventId))
      && Logged(t, after, eventId, Create, caller, env, None, Some(after.events[eventId]))
      && after.statuses == t.statuses
  {
  }

  // ── Correction ──────────────────────────────────────────────────────────

  function Patched<T>(p: Patch<T>, was: T): T { if p.Set? then p.value else was }

  /** The child, type and pickup a correction would leave. */
  function NextChild(e: Event, p: EventPatch): Id { Patched(p.childId, e.childId) }

  function NextType(e: Event, p: EventPatch): EventType { Patched(p.eventType, e.eventType) }

  function NextPickup(e: Event, p: EventPatch): Option<Id> {
    if p.pickupUserId.Set? then Some(p.pickupUserId.value) else e.pickupUserId
  }

  /** A correction throws exactly the error of its checks. */
  lemma PatchThrowsItsRefusal(t: Tables, env: Env, eventId: Id, caller: Id, p: EventPatch, opts: PatchOpts, entryId: Id)
    ensures Of(PatchCall(t, env, eventId, caller, p, opts, entryId))
         == OfOption(PatchRefusal(t, env, eventId, caller, p, opts, entryId))
  {
    hide LocalIsoDate, SettleAll, Realigned, PatchRefusal;
  }

  lemma PatchRefusals(t: Tables, env: Env, eventId: Id, caller: Id, p: EventPatch, opts: PatchOpts, entryId: Id)
    requires eventId in t.events && t.events[eventId].deletedAt == None
    ensures var e := t.events[eventId];
      OfOption(PatchRefusal(t, env, eventId, caller, p, opts, entryId)) ==
        When(caller !in env.staff, StaffNotFound)
        .Or(When(p.recordedAt.Set? && p.recordedAt.value > env.now + FIVE_MINUTES, InvalidTimestamp))
        .Or(When(p.childId.Set? && !opts.allowStructuralCorrection, AdminOnly("child_id")))
        .Or(When(p.eventType.Set? && !opts.allowStructuralCorrection, AdminOnly("event_type")))
        .Or(When(!opts.skipEditWindow && LocalIsoDate(e.recordedAt) != LocalIsoDate(env.now), EditWindowExpired))
        .Or(When(NextChild(e, p) != e.childId && NextChild(e, p) !in env.children, ChildNotFound))
        .Or(When(p.pickupUserId.Set? && NextType(e, p).CheckIn?, InvalidPickup))
        .Or(When(NextType(e, p).CheckOut? && NextPickup(e, p).Some?
              && (NextChild(e, p) != e.childId || NextPickup(e, p) != e.pickupUserId)
              && (NextChild(e, p), NextPickup(e, p).value) !in env.pickups, PickupNotAllowed))
        .Or(When(NextType(e, p) != e.eventType && entryId in t.timeline
              && exists k :: k in t.timeline && t.timeline[k].sourceEventId == Some(eventId), DuplicateKey))
  {
    hide LocalIsoDate;
  }

  lemma PatchNeedsALiveEvent(t: Tables, env: Env, eventId: Id, caller: Id, p: EventPatch, opts: PatchOpts, entryId: Id)
    requires eventId !in t.events || t.events[eventId].deletedAt.Some?
    ensures Of(PatchCall(t, env, eventId, caller, p, opts, entryId)) ==
      When(caller !in env.staff, StaffNotFound)
      .Or(When(p.recordedAt.Set? && p.recordedAt.value > env.now + FIVE_MINUTES, InvalidTimestamp))
      .Or(When(true, EventNotFound))
  {
    hide LocalIsoDate, SettleAll, Realigned;
  }

  /** A correction sets the fields its patch sets and leaves the others: a
      check-in ends without pickup, and who recorded the event, how and when
      the row was made never change. */
  lemma PatchLeaves(t: Tables, env: Env, eventId: Id, caller: Id, p: EventPatch, opts: PatchOpts, entryId: Id)
    requires PatchCall(t, env, eventId, caller, p, opts, entryId).Ok?
    ensures var after := PatchCall(t, env, eventId, caller, p, opts, entryId).value;
      && eventId in t.events && OnlyRow(t.events, after.events, eventId)
      && Logged(t, after, eventId, Update, caller, env, Some(t.events[eventId]), Some(after.events[eventId]))
    ensures var was, e := t.events[eventId], PatchCall(t, env, eventId, caller, p, opts, entryId).value.events[eventId];
      && e.recordedAt == Patched(p.recordedAt, was.recordedAt)
      && e.notes == Patched(p.notes, was.notes)
      && e.childId == Patched(p.childId, was.childId)
      && e.eventType == Patched(p.eventType, was.eventType)
      && e.how == was.how && e.recordedBy == was.recordedBy && e.createdAt == was.createdAt
      && was.deletedAt == None && e.deletedAt == None
    ensures var was, e := t.events[eventId], PatchCall(t, env, eventId, caller, p, opts, entryId).value.events[eventId];
      if e.eventType.CheckIn? then e.pickupUserId == None && e.pickupRequestId == None
      else e.pickupUserId == NextPickup(was, p) && e.pickupRequestId == was.pickupRequestId
  {
    hide LocalIsoDate, SettleAll, Realigned, HasMirror;
  }

  /** Somebody else's live check-in in a bucket. */
  ghost predicate OtherCheckInOn(events: map<Id, Event>, id: Id, b: Bucket) {
    exists x :: x in events && x != id && CountsFor(events[x], b)
  }

  /** A corrected check-in counts in the bucket of its new child and time, and in
      the old one no longer. */
  lemma CorrectionMovesTheCheckIn(t: Tables, env: Env, eventId: Id, caller: Id, p: EventPatch, opts: PatchOpts,
                                  entryId: Id)
    requires PatchCall(t, env, eventId, caller, p, opts, entryId).Ok?
    ensures eventId in t.events
    ensures var was, events := t.events[eventId], PatchCall(t, env, eventId, caller, p, opts, entryId).value.events;
      var to := Bucket(Patched(p.childId, was.childId), LocalIsoDate(Patched(p.recordedAt, was.recordedAt)));
      forall b :: HasCheckInOn(events, b) <==>
        OtherCheckInOn(t.events, eventId, b) || (Patched(p.eventType, was.eventType).CheckIn? && b == to)
  {
    hide LocalIsoDate;
    PatchLeaves(t, env, eventId, caller, p, opts, entryId);
    var was, events := t.events[eventId], PatchCall(t, env, eventId, caller, p, opts, entryId).value.events;
    forall b
      ensures HasCheckInOn(events, b) <==> OtherCheckInOn(t.events, eventId, b) || CountsFor(events[eventId], b)
    {
      CountedElsewhere(t.events, events, eventId, b);
    }
  }

  lemma CountedElsewhere(was: map<Id, Event>, events: map<Id, Event>, id: Id, b: Bucket)
    requires OnlyRow(was, events, id)
    ensures HasCheckInOn(events, b) <==> OtherCheckInOn(was, id, b) || CountsFor(events[id], b)
  {
    hide LocalIsoDate;
    if HasCheckInOn(events, b) {
      var x :| x in events && CountsFor(events[x], b);
      assert x == id || (x in was && was[x] == events[x]);
    }
    if OtherCheckInOn(was, id, b) {
      var x :| x in was && x != id && CountsFor(was[x], b);
      assert x in events && CountsFor(events[x], b);
    }
  }

  /** And the statuses follow: the bucket it lands in no longer reads missing,
      absent or late; a bucket left without a live check-in not present. */
  lemma CorrectionMovesTheStatus(t: Tables, env: Env, eventId: Id, caller: Id, p: EventPatch, opts: PatchOpts,
                                 entryId: Id, b: Bucket)
    requires FaithfulRows(t.events) && (p.recordedAt.Set? ==> Faithful(p.recordedAt.value))
    requires PatchCall(t, env, eventId, caller, p, opts, entryId).Ok? && eventId in t.events
    requires var was := t.events[eventId];
      b in {Bucket(was.childId, LocalIsoDate(was.recordedAt)),
            Bucket(Patched(p.childId, was.childId), LocalIsoDate(Patched(p.recordedAt, was.recordedAt)))}
    ensures var after := PatchCall(t, env, eventId, caller, p, opts, entryId).value;
      if HasCheckInOn(after.events, b) then StatusOf(after, b) !in {None, Some(Absent), Some(Late)}
      else StatusOf(after, b) != Some(Present)
  {
    hide LocalIsoDate, InDay, LocalYear, Settle, SettleAll, Realigned, HasLiveCheckIn, HasCheckInOn;
    PatchLeaves(t, env, eventId, caller, p, opts, entryId);
    var after := PatchCall(t, env, eventId, caller, p, opts, entryId).value;
    var was, e := t.events[eventId], after.events[eventId];
    WindowIsBucket(after.events, was.childId, was.recordedAt);
    WindowIsBucket(after.events, e.childId, e.recordedAt);
    SettledStatuses(t.statuses, {was.DayBucket(), e.DayBucket()}, after.events, env.staff[caller], env.now);
  }

  /** What a correction does to timeline rows: nothing when the event has no
      mirror, else the mirror follows, keeping its text, or is made anew. */
  lemma PatchLeavesTheTimeline(t: Tables, env: Env, eventId: Id, caller: Id, p: EventPatch, opts: PatchOpts,
                               entryId: Id, k: Id)
    requires PatchCall(t, env, eventId, caller, p, opts, entryId).Ok? && k in t.timeline
    requires eventId in t.events
    ensures var after := PatchCall(t, env, eventId, caller, p, opts, entryId).value;
      var was, x := t.events[eventId], t.timeline[k];
      var flips := Patched(p.eventType, was.eventType) != was.eventType;
      if x.sourceEventId != Some(eventId) then k in after.timeline && after.timeline[k] == x
      else if flips then
        (k != entryId ==> k !in after.timeline)
      else
        k in after.timeline && after.timeline[k].content == x.content && after.timeline[k].entryType == x.entryType
        && after.timeline[k].createdAt == x.createdAt && after.timeline[k].recordedBy == x.recordedBy
        && after.timeline[k].sourceEventId == x.sourceEventId
        && ((Patched(p.childId, was.childId) == was.childId && Patched(p.recordedAt, was.recordedAt) == was.recordedAt
             && after.timeline[k] == x)
            || (after.timeline[k].childId == Patched(p.childId, was.childId)
                && after.timeline[k].entryTime == Patched(p.recordedAt, was.recordedAt)))
  {
    hide LocalIsoDate, SettleAll;
    PatchLeaves(t, env, eventId, caller, p, opts, entryId);
  }

  lemma FlipMakesTheMirrorAnew(t: Tables, env: Env, eventId: Id, caller: Id, p: EventPatch, opts: PatchOpts,
                               entryId: Id, k: Id)
    requires PatchCall(t, env, eventId, caller, p, opts, entryId).Ok?
    requires k in t.timeline && t.timeline[k].sourceEventId == Some(eventId)
    requires eventId in t.events && Patched(p.eventType, t.events[eventId].eventType) != t.events[eventId].eventType
    ensures var after := PatchCall(t, env, eventId, caller, p, opts, entryId).value; var e := after.events[eventId];
      && entryId in after.timeline
      && after.timeline[entryId] == Entry(
           e.childId, if e.eventType.CheckIn? then CheckInEntry else CheckOutEntry,
           Content(Some(if e.eventType.CheckIn? then "Check-in" else "Check-out"), None, None, None),
           e.recordedBy, e.recordedAt, env.now, Some(eventId))
  {
    hide LocalIsoDate, SettleAll;
    PatchLeaves(t, env, eventId, caller, p, opts, entryId);
    assert Mirrors(t.timeline, k, eventId);
  }

  // ── Deletion and explicit statuses ──────────────────────────────────────

  lemma DeleteRefusal(t: Tables, env: Env, eventId: Id, caller: Id)
    ensures Of(DeleteCall(t, env, eventId, caller)) ==
      When(caller !in env.staff, StaffNotFound)
      .Or(When(eventId !in t.events || t.events[eventId].deletedAt.Some?, EventNotFound))
  {
    hide SettleAll, LocalIsoDate;
  }

  /** A deletion marks the row, drops its mirror alone, and logs what it was. */
  lemma DeleteLeaves(t: Tables, env: Env, eventId: Id, caller: Id)
    requires DeleteCall(t, env, eventId, caller).Ok?
    ensures var after := DeleteCall(t, env, eventId, caller).value;
      && eventId in t.events && OnlyRow(t.events, after.events, eventId)
      && after.events[eventId] == t.events[eventId].(deletedAt := Some(env.now))
      && Logged(t, after, eventId, Delete, caller, env, Some(t.events[eventId]), None)
    ensures var after := DeleteCall(t, env, eventId, caller).value;
      forall k :: k in t.timeline ==>
        (k in after.timeline <==> t.timeline[k].sourceEventId != Some(eventId))
        && (k in after.timeline ==> after.timeline[k] == t.timeline[k])
    ensures DeleteCall(t, env, eventId, caller).value.timeline.Keys <= t.timeline.Keys
  {
    hide SettleAll, LocalIsoDate;
  }

  /** What a recompute makes of a row, beyond its status: a demotion keeps the
      note, and each change names the corrector and the time. */
  lemma SettledRow(row: Option<DailyStatus>, live: bool, staff: Id, now: int)
    ensures live ==> Lifted(row, Settle(row, live, staff, now).value, staff, now)
    ensures !live ==>
      var demoted := row.Some? && row.value.status == Present;
      Settle(row, live, staff, now) == if demoted then Some(DailyStatus(Absent, row.value.note, staff, now)) else row
  {
  }

  lemma SetDailyStatusRefusal(t: Tables, env: Env, caller: Id, b: Bucket, status: Intraday, note: Option<string>)
    ensures Of(SetDailyStatusCall(t, env, caller, b, status, note)) ==
      When(caller !in env.staff, StaffNotFound)
      .Or(When(b.childId !in env.children, ChildNotFound))
  {
  }

  /** An explicit status overwrites its bucket's row, and logs both. */
  lemma SetDailyStatusLeaves(t: Tables, env: Env, caller: Id, b: Bucket, status: Intraday, note: Option<string>)
    requires SetDailyStatusCall(t, env, caller, b, status, note).Ok?
    ensures var after := SetDailyStatusCall(t, env, caller, b, status, note).value;
      && caller in env.staff && OnlyRow(t.statuses, after.statuses, b)
      && after.statuses[b].status == status && after.statuses[b].note == note
      && after.statuses[b].setBy == env.staff[caller] && after.statuses[b].updatedAt == env.now
      && after.events == t.events && after.timeline == t.timeline
      && |after.audit| == |t.audit| + 1 && after.audit[..|t.audit|] == t.audit
      && after.audit[|t.audit|] == StatusAudit(
           b, if b in t.statuses then Update else Create, caller, env.staff[caller],
           if b in t.statuses then Some(t.statuses[b]) else None, after.statuses[b], env.now)
  {
  }

  // ── Timeline entries ────────────────────────────────────────────────────

  predicate MentorElsewhere(env: Env, caller: Id, childId: Id, opts: TimelineOpts) {
    opts.isMentor && !opts.isAdmin && (childId !in env.groups || (caller, env.groups[childId]) !in env.mentors)
  }

  predicate BadMetadata(kind: EntryType, m: Option<map<string, string>>) {
    m.Some? && ((kind.Mood? && "mood" in m.value && m.value["mood"] !in {"happy", "ok", "sad"})
             || (kind.Meal? && "ate" in m.value && m.value["ate"] !in {"all", "half", "little"}))
  }

  lemma CreateEntryRefusal(t: Tables, env: Env, childId: Id, caller: Id, kind: EntryType, content: Content,
                           at: Option<int>, opts: TimelineOpts, entryId: Id)
    ensures Of(CreateEntryCall(t, env, childId, caller, kind, content, at, opts, entryId)) ==
      When(kind in {CheckInEntry, CheckOutEntry}, ReservedEntryType)
      .Or(When(BadMetadata(kind, content.metadata), InvalidMetadata))
      .Or(When(caller !in env.staff, StaffNotFound))
      .Or(When(childId !in env.children, ChildNotFound))
      .Or(When(MentorElsewhere(env, caller, childId, opts), MentorScopeViolated))
      .Or(When(at.Some? && at.value > env.now + FIVE_MINUTES, InvalidTimestamp))
      .Or(When(entryId in t.timeline, DuplicateKey))
  {
  }

  lemma CreateEntryLeaves(t: Tables, env: Env, childId: Id, caller: Id, kind: EntryType, content: Content,
                          at: Option<int>, opts: TimelineOpts, entryId: Id)
    requires CreateEntryCall(t, env, childId, caller, kind, content, at, opts, entryId).Ok?
    ensures var after := CreateEntryCall(t, env, childId, caller, kind, content, at, opts, entryId).value;
      && caller in env.staff && after == t.(timeline := after.timeline) && OnlyRow(t.timeline, after.timeline, entryId)
      && after.timeline[entryId] == Entry(childId, kind, content, Some(env.staff[caller]),
                                          if at.Some? then at.value else env.now, env.now, None)
  {
  }

  /** Who may touch an entry: its author or an admin, a mentor only for the
      children of a group of theirs. */
  lemma EntryRefusals(t: Tables, env: Env, entryId: Id, caller: Id, opts: TimelineOpts)
    ensures entryId !in t.timeline ==> EntryRefusal(t, env, entryId, caller, opts) == Some(EntryNotFound)
    ensures entryId in t.timeline ==>
      var x := t.timeline[entryId];
      OfOption(EntryRefusal(t, env, entryId, caller, opts)) ==
        When(!opts.isAdmin && caller !in env.staff, StaffNotFound)
        .Or(When(!opts.isAdmin && caller in env.staff && x.recordedBy != Some(env.staff[caller]), NotAuthor))
        .Or(When(!opts.isAdmin && opts.isMentor && x.childId !in env.children, ChildNotFound))
        .Or(When(MentorElsewhere(env, caller, x.childId, opts), MentorScopeViolated))
  {
  }

  lemma UpdateEntryRefusal(t: Tables, env: Env, entryId: Id, caller: Id, p: EntryPatch, opts: TimelineOpts)
    requires EntryRefusal(t, env, entryId, caller, opts).None?
    ensures entryId in t.timeline
    ensures Of(UpdateEntryCall(t, env, entryId, caller, p, opts)) ==
      When(p.entryTime.Set? && p.entryTime.value > env.now + FIVE_MINUTES, InvalidTimestamp)
      .Or(When(p.metadata.Set? && BadMetadata(t.timeline[entryId].entryType, p.metadata.value), InvalidMetadata))
  {
  }

  /** An entry's update sets the fields its patch sets and leaves the others,
      its child, type, author and source always. */
  lemma UpdateEntryLeaves(t: Tables, env: Env, entryId: Id, caller: Id, p: EntryPatch, opts: TimelineOpts)
    requires UpdateEntryCall(t, env, entryId, caller, p, opts).Ok?
    ensures EntryRefusal(t, env, entryId, caller, opts).None? && entryId in t.timeline
    ensures var after := UpdateEntryCall(t, env, entryId, caller, p, opts).value; var x := t.timeline[entryId];
      && after == t.(timeline := after.timeline) && OnlyRow(t.timeline, after.timeline, entryId)
      && after.timeline[entryId].content.title == Patched(p.title, x.content.title)
      && after.timeline[entryId].content.body == Patched(p.body, x.content.body)
      && after.timeline[entryId].content.mediaUrls == Patched(p.mediaUrls, x.content.mediaUrls)
      && after.timeline[entryId].content.metadata == Patched(p.metadata, x.content.metadata)
      && after.timeline[entryId].entryTime == Patched(p.entryTime, x.entryTime)
      && after.timeline[entryId].childId == x.childId && after.timeline[entryId].entryType == x.entryType
      && after.timeline[entryId].recordedBy == x.recordedBy && after.timeline[entryId].createdAt == x.createdAt
      && after.timeline[entryId].sourceEventId == x.sourceEventId
  {
  }

  lemma DeleteEntryLeaves(t: Tables, env: Env, entryId: Id, caller: Id, opts: TimelineOpts)
    ensures Of(DeleteEntryCall(t, env, entryId, caller, opts)) == OfOption(EntryRefusal(t, env, entryId, caller, opts))
    ensures DeleteEntryCall(t, env, entryId, caller, opts).Ok? ==>
      var after := DeleteEntryCall(t, env, entryId, caller, opts).value;
      && after == t.(timeline := after.timeline) && after.timeline.Keys == t.timeline.Keys - {entryId}
      && forall k :: k in after.timeline ==> after.timeline[k] == t.timeline[k]
  {
  }
}
