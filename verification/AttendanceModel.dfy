/** The four tables of the attendance register, one kindergarten's rows, and what
    each service call does to them as a whole. */
module AttendanceModel {
  import opened Options
  import opened CivilCalendar

  type Id = string

  // ── Rows ────────────────────────────────────────────────────────────────

  datatype EventType = CheckIn | CheckOut

  datatype Method = FaceId | Manual | OtpPickup

  datatype Event = Event(
    childId: Id, eventType: EventType, how: Method, recordedBy: Option<Id>,
    pickupUserId: Option<Id>, pickupRequestId: Option<Id>, notes: Option<string>,
    recordedAt: int, createdAt: int, deletedAt: Option<int>)
  {
    predicate Live() { deletedAt.None? }

    function DayBucket(): Bucket { Bucket(childId, LocalIsoDate(recordedAt)) }

    /** `applyPatch`: absent fields stay, and a check-in never keeps a pickup. */
    function ApplyPatch(p: EventPatch): Event {
      var moved := this.(
        recordedAt := p.recordedAt.Or(recordedAt), notes := p.notes.Or(notes),
        childId := p.childId.Or(childId), eventType := p.eventType.Or(eventType),
        pickupUserId := if p.pickupUserId.Set? then Some(p.pickupUserId.value) else pickupUserId);
      if moved.eventType.CheckIn? then moved.(pickupUserId := None, pickupRequestId := None) else moved
    }
  }

  datatype EventPatch = EventPatch(
    recordedAt: Patch<int>, notes: Patch<Option<string>>, pickupUserId: Patch<Id>,
    childId: Patch<Id>, eventType: Patch<EventType>)

  datatype EntryType =
    | CheckInEntry | CheckOutEntry | Activity | Meal | Nap | Note | Photo | Mood | Medication

  predicate Reserved(kind: EntryType) { kind.CheckInEntry? || kind.CheckOutEntry? }

  function MirrorType(e: EventType): EntryType {
    match e case CheckIn => CheckInEntry case CheckOut => CheckOutEntry
  }

  datatype Content = Content(
    title: Option<string>, body: Option<string>,
    mediaUrls: Option<seq<string>>, metadata: Option<map<string, string>>)

  datatype Entry = Entry(
    childId: Id, entryType: EntryType, content: Content, recordedBy: Option<Id>,
    entryTime: int, createdAt: int, sourceEventId: Option<Id>)

  datatype Intraday = Present | Absent | Sick | Late | EarlyPickup | OnVacation

  datatype DailyStatus = DailyStatus(status: Intraday, note: Option<string>, setBy: Id, updatedAt: int)

  /** One (child, local date) pair, the unique key of `child_daily_status`. */
  datatype Bucket = Bucket(childId: Id, date: string)

  datatype Action = Create | Update | Delete

  datatype AuditEntry =
    | EventAudit(eventId: Id, action: Action, actorUser: Id, actorStaff: Id,
                 before: Option<Event>, after: Option<Event>, at: int)
    | StatusAudit(bucket: Bucket, action: Action, actorUser: Id, actorStaff: Id,
                  previous: Option<DailyStatus>, next: DailyStatus, at: int)

  datatype Tables = Tables(
    events: map<Id, Event>, timeline: map<Id, Entry>,
    statuses: map<Bucket, DailyStatus>, audit: seq<AuditEntry>)

  const EMPTY: Tables := Tables(map[], map[], map[], [])

  function Lookup<K, V>(m: map<K, V>, k: K): Option<V> { if k in m then Some(m[k]) else None }

  // ── What a call reads from outside the four tables ──────────────────────

  /** The clock and the rows of other modules, arbitrary from call to call. */
  datatype Env = Env(
    now: int, staff: map<Id, Id>, children: set<Id>, pickups: set<(Id, Id)>,
    groups: map<Id, Id>, mentors: set<(Id, Id)>)

  datatype Error =
    | InvalidTimestamp | StaffNotFound | ChildNotFound | InvalidPickup | PickupNotAllowed
    | EventNotFound | AdminOnly(field: string) | EditWindowExpired | DuplicateKey
    | ReservedEntryType | InvalidMetadata | EntryNotFound | NotAuthor | MentorScopeViolated

  const SKEW_MS: int := 5 * 60 * 1000

  predicate TooFarAhead(env: Env, t: int) { t > env.now + SKEW_MS }

  // ── Daily status of a bucket ────────────────────────────────────────────

  /** The recompute's query: a live check-in of the child in the date's window. */
  predicate HasLiveCheckIn(events: map<Id, Event>, b: Bucket) {
    exists id | id in events ::
      events[id].Live() && events[id].eventType.CheckIn?
      && events[id].childId == b.childId && InDay(b.date, events[id].recordedAt)
  }

  /** What a bucket's row becomes, given whether a live check-in remains. */
  function Settle(row: Option<DailyStatus>, live: bool, staff: Id, now: int): (settled: Option<DailyStatus>)
    ensures live ==> settled.Some?
  {
    if live then
      match row
      case None => Some(DailyStatus(Present, None, staff, now))
      case Some(s) =>
        if s.status.Absent? || s.status.Late?
        then Some(s.(status := Present, setBy := staff, updatedAt := now)) else row
    else
      match row
      case Some(s) =>
        if s.status.Present? then Some(DailyStatus(Absent, s.note, staff, now)) else row
      case None => None
  }

  /** Every touched bucket settled, all others left alone. */
  function SettleAll(statuses: map<Bucket, DailyStatus>, touched: set<Bucket>,
                     events: map<Id, Event>, staff: Id, now: int): (after: map<Bucket, DailyStatus>)
    ensures forall b :: b !in touched ==> Lookup(after, b) == Lookup(statuses, b)
    ensures forall b :: b in touched ==>
      Lookup(after, b) == Settle(Lookup(statuses, b), HasLiveCheckIn(events, b), staff, now)
  {
    map b | b in statuses.Keys + touched && Row(statuses, touched, events, staff, now, b).Some?
      :: Row(statuses, touched, events, staff, now, b).value
  }

  function Row(statuses: map<Bucket, DailyStatus>, touched: set<Bucket>, events: map<Id, Event>,
               staff: Id, now: int, b: Bucket): Option<DailyStatus> {
    if b in touched then Settle(Lookup(statuses, b), HasLiveCheckIn(events, b), staff, now)
    else Lookup(statuses, b)
  }

  // ── The timeline mirror of an event ─────────────────────────────────────

  predicate Mirrors(timeline: map<Id, Entry>, k: Id, eventId: Id) {
    k in timeline && timeline[k].sourceEventId == Some(eventId)
  }

  predicate HasMirror(timeline: map<Id, Entry>, eventId: Id) {
    exists k | k in timeline :: Mirrors(timeline, k, eventId)
  }

  function WithoutMirror(timeline: map<Id, Entry>, eventId: Id): map<Id, Entry> {
    map k | k in timeline && !Mirrors(timeline, k, eventId) :: timeline[k]
  }

  function MirrorEntry(eventId: Id, e: Event, now: int): Entry {
    var title := match e.eventType case CheckIn => "Check-in" case CheckOut => "Check-out";
    Entry(e.childId, MirrorType(e.eventType), Content(Some(title), None, None, None),
          e.recordedBy, e.recordedAt, now, Some(eventId))
  }

  /** The timeline after a correction: a mirror follows its event, and is
      replaced by a new row when the type flips; a missing mirror stays missing. */
  function Realigned(timeline: map<Id, Entry>, eventId: Id, before: Event, after: Event,
                     entryId: Id, now: int): map<Id, Entry> {
    if !HasMirror(timeline, eventId) then timeline
    else if before.eventType != after.eventType then
      WithoutMirror(timeline, eventId)[entryId := MirrorEntry(eventId, after, now)]
    else if before.childId == after.childId && before.recordedAt == after.recordedAt then timeline
    else
      map k | k in timeline ::
        if Mirrors(timeline, k, eventId)
        then timeline[k].(childId := after.childId, entryTime := after.recordedAt)
        else timeline[k]
  }

  // ── AttendanceService ───────────────────────────────────────────────────

  /** Adds an event with its mirror and its audit row. */
  function Recorded(t: Tables, eventId: Id, entryId: Id, e: Event, caller: Id, staff: Id, now: int): Tables {
    t.(events := t.events[eventId := e],
       timeline := t.timeline[entryId := MirrorEntry(eventId, e, now)],
       audit := t.audit + [EventAudit(eventId, Create, caller, staff, None, Some(e), now)])
  }

  function CheckInCall(t: Tables, env: Env, childId: Id, caller: Id, at: Option<int>,
                       notes: Option<string>, eventId: Id, entryId: Id): Result<Tables, Error> {
    var recordedAt := if at.Some? then at.value else env.now;
    if TooFarAhead(env, recordedAt) then Err(InvalidTimestamp)
    else if caller !in env.staff then Err(StaffNotFound)
    else if childId !in env.children then Err(ChildNotFound)
    else if eventId in t.events || entryId in t.timeline then Err(DuplicateKey)
    else
      var staff := env.staff[caller];
      var e := Event(childId, CheckIn, Manual, Some(staff), None, None, notes, recordedAt, env.now, None);
      var b := e.DayBucket();
      Ok(Recorded(t, eventId, entryId, e, caller, staff, env.now)
         .(statuses := t.statuses[b := Settle(Lookup(t.statuses, b), true, staff, env.now).value]))
  }

  datatype CheckOutOpts = CheckOutOpts(
    recordedAt: Option<int>, notes: Option<string>, pickupRequestId: Option<Id>, how: Method)

  function CheckOutCall(t: Tables, env: Env, childId: Id, caller: Id, pickupUserId: Option<Id>,
                        opts: CheckOutOpts, eventId: Id, entryId: Id): Result<Tables, Error> {
    var recordedAt := if opts.recordedAt.Some? then opts.recordedAt.value else env.now;
    if TooFarAhead(env, recordedAt) then Err(InvalidTimestamp)
    else if caller !in env.staff then Err(StaffNotFound)
    else if childId !in env.children then Err(ChildNotFound)
    else if opts.pickupRequestId.None? && pickupUserId.None? then Err(InvalidPickup)
    else if opts.pickupRequestId.None? && (childId, pickupUserId.value) !in env.pickups then Err(PickupNotAllowed)
    else if eventId in t.events || entryId in t.timeline then Err(DuplicateKey)
    else
      var staff := env.staff[caller];
      var e := Event(childId, CheckOut, opts.how, Some(staff), pickupUserId, opts.pickupRequestId,
                     opts.notes, recordedAt, env.now, None);
      Ok(Recorded(t, eventId, entryId, e, caller, staff, env.now))
  }

  datatype PatchOpts = PatchOpts(skipEditWindow: bool, allowStructuralCorrection: bool)

  function LiveEvent(t: Tables, eventId: Id): Option<Event> {
    if eventId in t.events && t.events[eventId].Live() then Some(t.events[eventId]) else None
  }

  /** The first check a patch fails, in the order they are made. */
  function PatchRefusal(t: Tables, env: Env, eventId: Id, caller: Id, p: EventPatch, opts: PatchOpts,
                        entryId: Id): Option<Error> {
    if caller !in env.staff then Some(StaffNotFound)
    else if p.recordedAt.Set? && TooFarAhead(env, p.recordedAt.value) then Some(InvalidTimestamp)
    else
      match LiveEvent(t, eventId)
      case None => Some(EventNotFound)
      case Some(before) =>
        var after := before.ApplyPatch(p);
        var nextType := p.eventType.Or(before.eventType);
        var nextPickup := if p.pickupUserId.Set? then Some(p.pickupUserId.value) else before.pickupUserId;
        if !opts.allowStructuralCorrection && p.childId.Set? then Some(AdminOnly("child_id"))
        else if !opts.allowStructuralCorrection && p.eventType.Set? then Some(AdminOnly("event_type"))
        else if !opts.skipEditWindow && LocalIsoDate(before.recordedAt) != LocalIsoDate(env.now)
        then Some(EditWindowExpired)
        else if after.childId != before.childId && after.childId !in env.children then Some(ChildNotFound)
        else if p.pickupUserId.Set? && nextType.CheckIn? then Some(InvalidPickup)
        else if nextType.CheckOut? && nextPickup.Some?
                && (after.childId != before.childId || nextPickup != before.pickupUserId)
                && (after.childId, nextPickup.value) !in env.pickups then Some(PickupNotAllowed)
        else if nextType != before.eventType && HasMirror(t.timeline, eventId) && entryId in t.timeline
        then Some(DuplicateKey)
        else None
  }

  function PatchCall(t: Tables, env: Env, eventId: Id, caller: Id, p: EventPatch, opts: PatchOpts,
                     entryId: Id): Result<Tables, Error> {
    match PatchRefusal(t, env, eventId, caller, p, opts, entryId)
    case Some(error) => Err(error)
    case None =>
      var before, staff := t.events[eventId], env.staff[caller];
      var after := before.ApplyPatch(p);
      var events := t.events[eventId := after];
      Ok(Tables(
        events,
        Realigned(t.timeline, eventId, before, after, entryId, env.now),
        SettleAll(t.statuses, {before.DayBucket(), after.DayBucket()}, events, staff, env.now),
        t.audit + [EventAudit(eventId, Update, caller, staff, Some(before), Some(after), env.now)]))
  }

  function DeleteCall(t: Tables, env: Env, eventId: Id, caller: Id): Result<Tables, Error> {
    if caller !in env.staff then Err(StaffNotFound)
    else
      match LiveEvent(t, eventId)
      case None => Err(EventNotFound)
      case Some(before) =>
        var staff := env.staff[caller];
        var events := t.events[eventId := before.(deletedAt := Some(env.now))];
        Ok(Tables(
          events, WithoutMirror(t.timeline, eventId),
          SettleAll(t.statuses, {before.DayBucket()}, events, staff, env.now),
          t.audit + [EventAudit(eventId, Delete, caller, staff, Some(before), None, env.now)]))
  }

  function SetDailyStatusCall(t: Tables, env: Env, caller: Id, b: Bucket, status: Intraday,
                              note: Option<string>): Result<Tables, Error> {
    if caller !in env.staff then Err(StaffNotFound)
    else if b.childId !in env.children then Err(ChildNotFound)
    else
      var staff := env.staff[caller];
      var previous := Lookup(t.statuses, b);
      var next := DailyStatus(status, note, staff, env.now);
      Ok(t.(statuses := t.statuses[b := next],
            audit := t.audit + [StatusAudit(b, if previous.None? then Create else Update, caller, staff,
                                            previous, next, env.now)]))
  }

  // ── TimelineService ─────────────────────────────────────────────────────

  datatype TimelineOpts = TimelineOpts(isAdmin: bool, isMentor: bool)

  predicate MetadataAccepted(kind: EntryType, metadata: Option<map<string, string>>) {
    metadata.None?
    || ((kind.Mood? && "mood" in metadata.value ==> metadata.value["mood"] in {"happy", "ok", "sad"})
        && (kind.Meal? && "ate" in metadata.value ==> metadata.value["ate"] in {"all", "half", "little"}))
  }

  predicate MentorMayWrite(env: Env, caller: Id, childId: Id) {
    childId in env.groups && (caller, env.groups[childId]) in env.mentors
  }

  function CreateEntryCall(t: Tables, env: Env, childId: Id, caller: Id, kind: EntryType,
                           content: Content, at: Option<int>, opts: TimelineOpts,
                           entryId: Id): Result<Tables, Error> {
    var entryTime := if at.Some? then at.value else env.now;
    if Reserved(kind) then Err(ReservedEntryType)
    else if !MetadataAccepted(kind, content.metadata) then Err(InvalidMetadata)
    else if caller !in env.staff then Err(StaffNotFound)
    else if childId !in env.children then Err(ChildNotFound)
    else if !opts.isAdmin && opts.isMentor && !MentorMayWrite(env, caller, childId) then Err(MentorScopeViolated)
    else if TooFarAhead(env, entryTime) then Err(InvalidTimestamp)
    else if entryId in t.timeline then Err(DuplicateKey)
    else Ok(t.(timeline := t.timeline[entryId :=
      Entry(childId, kind, content, Some(env.staff[caller]), entryTime, env.now, None)]))
  }

  /** The checks `updateEntry` and `deleteEntry` share. */
  function EntryRefusal(t: Tables, env: Env, entryId: Id, caller: Id, opts: TimelineOpts): Option<Error> {
    if entryId !in t.timeline then Some(EntryNotFound)
    else if !opts.isAdmin && caller !in env.staff then Some(StaffNotFound)
    else if !opts.isAdmin && t.timeline[entryId].recordedBy != Some(env.staff[caller]) then Some(NotAuthor)
    else if !opts.isAdmin && opts.isMentor && t.timeline[entryId].childId !in env.children then Some(ChildNotFound)
    else if !opts.isAdmin && opts.isMentor && !MentorMayWrite(env, caller, t.timeline[entryId].childId)
    then Some(MentorScopeViolated)
    else None
  }

  datatype EntryPatch = EntryPatch(
    title: Patch<Option<string>>, body: Patch<Option<string>>, mediaUrls: Patch<Option<seq<string>>>,
    metadata: Patch<Option<map<string, string>>>, entryTime: Patch<int>)

  function PatchedEntry(e: Entry, p: EntryPatch): Entry {
    e.(content := Content(p.title.Or(e.content.title), p.body.Or(e.content.body),
                          p.mediaUrls.Or(e.content.mediaUrls), p.metadata.Or(e.content.metadata)),
       entryTime := p.entryTime.Or(e.entryTime))
  }

  function UpdateEntryCall(t: Tables, env: Env, entryId: Id, caller: Id, p: EntryPatch,
                           opts: TimelineOpts): Result<Tables, Error> {
    match EntryRefusal(t, env, entryId, caller, opts)
    case Some(error) => Err(error)
    case None =>
      var entry := t.timeline[entryId];
      if p.entryTime.Set? && TooFarAhead(env, p.entryTime.value) then Err(InvalidTimestamp)
      else if p.metadata.Set? && !MetadataAccepted(entry.entryType, p.metadata.value) then Err(InvalidMetadata)
      else Ok(t.(timeline := t.timeline[entryId := PatchedEntry(entry, p)]))
  }

  function DeleteEntryCall(t: Tables, env: Env, entryId: Id, caller: Id,
                           opts: TimelineOpts): Result<Tables, Error> {
    match EntryRefusal(t, env, entryId, caller, opts)
    case Some(error) => Err(error)
    case None => Ok(t.(timeline := t.timeline - {entryId}))
  }

  // ── Runs ────────────────────────────────────────────────────────────────

  datatype Op =
    | RecordCheckIn(env: Env, childId: Id, caller: Id, at: Option<int>, notes: Option<string>,
                    eventId: Id, entryId: Id)
    | RecordCheckOut(env: Env, childId: Id, caller: Id, pickupUserId: Option<Id>, outOpts: CheckOutOpts,
                     eventId: Id, entryId: Id)
    | PatchEvent(env: Env, eventId: Id, caller: Id, patch: EventPatch, patchOpts: PatchOpts, entryId: Id)
    | DeleteEvent(env: Env, eventId: Id, caller: Id)
    | SetDailyStatus(env: Env, caller: Id, bucket: Bucket, status: Intraday, note: Option<string>)
    | CreateEntry(env: Env, childId: Id, caller: Id, kind: EntryType, content: Content, at: Option<int>,
                  opts: TimelineOpts, entryId: Id)
    | UpdateEntry(env: Env, entryId: Id, caller: Id, entryPatch: EntryPatch, opts: TimelineOpts)
    | DeleteEntry(env: Env, entryId: Id, caller: Id, opts: TimelineOpts)

  function Call(t: Tables, op: Op): Result<Tables, Error> {
    match op
    case RecordCheckIn(env, childId, caller, at, notes, eventId, entryId) =>
      CheckInCall(t, env, childId, caller, at, notes, eventId, entryId)
    case RecordCheckOut(env, childId, caller, pickup, opts, eventId, entryId) =>
      CheckOutCall(t, env, childId, caller, pickup, opts, eventId, entryId)
    case PatchEvent(env, eventId, caller, p, opts, entryId) =>
      PatchCall(t, env, eventId, caller, p, opts, entryId)
    case DeleteEvent(env, eventId, caller) => DeleteCall(t, env, eventId, caller)
    case SetDailyStatus(env, caller, b, status, note) => SetDailyStatusCall(t, env, caller, b, status, note)
    case CreateEntry(env, childId, caller, kind, content, at, opts, entryId) =>
      CreateEntryCall(t, env, childId, caller, kind, content, at, opts, entryId)
    case UpdateEntry(env, entryId, caller, p, opts) => UpdateEntryCall(t, env, entryId, caller, p, opts)
    case DeleteEntry(env, entryId, caller, opts) => DeleteEntryCall(t, env, entryId, caller, opts)
  }

  /** A call that throws leaves nothing behind: its transaction rolls back. */
  function Step(t: Tables, op: Op): Tables {
    match Call(t, op)
    case Ok(after) => after
    case Err(_) => t
  }

  function Run(ops: seq<Op>): Tables {
    if ops == [] then EMPTY else Step(Run(ops[..|ops| - 1]), ops[|ops| - 1])
  }
}
