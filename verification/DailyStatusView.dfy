/** The daily status kept by hand-written deltas equals the one derived from the
    events and the log; explicit statuses are the operator's alone. */
module DailyStatusView {
  import opened Options
  import opened CivilCalendar
  import opened AttendanceModel
  import opened AuditReplay

  /** A live check-in filed under the bucket, by printed date. */
  predicate HasCheckInOn(events: map<Id, Event>, b: Bucket) {
    exists id | id in events ::
      events[id].Live() && events[id].eventType.CheckIn? && events[id].DayBucket() == b
  }

  /** Some audit row once showed a check-in in the bucket. */
  predicate EverCheckedIn(audit: seq<AuditEntry>, b: Bucket) {
    exists a | a in audit :: ShowsCheckIn(a, b)
  }

  predicate ShowsCheckIn(a: AuditEntry, b: Bucket) {
    a.EventAudit? && a.after.Some? && a.after.value.eventType.CheckIn? && a.after.value.DayBucket() == b
  }

  function StatusIn(statuses: map<Bucket, DailyStatus>, b: Bucket): Option<Intraday> {
    match Lookup(statuses, b)
    case None => None
    case Some(row) => Some(row.status)
  }

  function StatusOf(t: Tables, b: Bucket): Option<Intraday> { StatusIn(t.statuses, b) }

  /** The status derived from scratch. */
  function Derived(t: Tables, b: Bucket): Option<Intraday> {
    if HasCheckInOn(t.events, b) then Some(Present)
    else if EverCheckedIn(t.audit, b) then Some(Absent)
    else None
  }

  // ── The date window is the printed date ─────────────────────────────────

  predicate Faithful(at: int) { LocalYear(at) >= 100 }

  predicate FaithfulRows(events: map<Id, Event>) {
    forall id :: id in events ==> Faithful(events[id].recordedAt)
  }

  /** The instants a call files events under lie in year 100 or later, where
      printing and reading a date agree. */
  predicate FaithfulOp(op: Op) {
    match op
    case RecordCheckIn(env, _, _, at, _, _, _) => Faithful(if at.Some? then at.value else env.now)
    case RecordCheckOut(env, _, _, _, opts, _, _) =>
      Faithful(if opts.recordedAt.Some? then opts.recordedAt.value else env.now)
    case PatchEvent(_, _, _, p, _, _) => p.recordedAt.Set? ==> Faithful(p.recordedAt.value)
    case _ => true
  }

  lemma WindowIsBucket(events: map<Id, Event>, child: Id, at: int)
    requires Faithful(at)
    ensures var b := Bucket(child, LocalIsoDate(at)); HasLiveCheckIn(events, b) <==> HasCheckInOn(events, b)
  {
    hide LocalIsoDate, InDay, LocalYear;
    var b := Bucket(child, LocalIsoDate(at));
    forall id | id in events
      ensures InDay(b.date, events[id].recordedAt) <==> LocalIsoDate(events[id].recordedAt) == b.date
    {
      DayWindow(at, events[id].recordedAt);
    }
    if HasLiveCheckIn(events, b) {
      var id :| id in events && events[id].Live() && events[id].eventType.CheckIn?
        && events[id].childId == b.childId && InDay(b.date, events[id].recordedAt);
      assert events[id].DayBucket() == b;
    }
  }

  // ── The incremental view equals the derived one ─────────────────────────

  ghost predicate InView(t: Tables) {
    && FaithfulRows(t.events)
    && (forall b :: StatusOf(t, b) == Derived(t, b))
    && (forall b :: HasCheckInOn(t.events, b) ==> EverCheckedIn(t.audit, b))
  }

  /** One event row written and logged, its old and new buckets settled. */
  lemma WriteKeepsView(t: Tables, after: Tables, id: Id, touched: set<Bucket>, a: AuditEntry)
    requires InView(t)
    requires id in after.events && after.events == t.events[id := after.events[id]]
    requires Faithful(after.events[id].recordedAt)
    requires after.audit == t.audit + [a] && a.EventAudit?
    requires a.after == if after.events[id].Live() then Some(after.events[id]) else None
    requires forall b :: b in touched ==>
      && (HasLiveCheckIn(after.events, b) <==> HasCheckInOn(after.events, b))
      && StatusOf(after, b) == SettledStatus(StatusOf(t, b), HasCheckInOn(after.events, b))
    requires forall b :: b !in touched ==> StatusOf(after, b) == StatusOf(t, b)
    requires id in t.events && t.events[id].Live() && t.events[id].eventType.CheckIn? ==>
      t.events[id].DayBucket() in touched
    requires after.events[id].Live() && after.events[id].eventType.CheckIn? ==> after.events[id].DayBucket() in touched
    ensures InView(after)
  {
    hide LocalIsoDate, InDay, LocalYear, StatusOf;
    forall b
      ensures StatusOf(after, b) == Derived(after, b)
      ensures HasCheckInOn(after.events, b) ==> EverCheckedIn(after.audit, b)
    {
      LoggedCheckIns(t.audit, a, b);
      CheckInsAfterWrite(t.events, after.events, id, b);
    }
  }

  function SettledStatus(s: Option<Intraday>, live: bool): Option<Intraday> {
    if live then (if s in {None, Some(Absent), Some(Late)} then Some(Present) else s)
    else if s == Some(Present) then Some(Absent) else s
  }

  lemma LoggedCheckIns(audit: seq<AuditEntry>, a: AuditEntry, b: Bucket)
    ensures EverCheckedIn(audit + [a], b) <==> EverCheckedIn(audit, b) || ShowsCheckIn(a, b)
  {
    hide ShowsCheckIn;
    assert forall x :: x in audit + [a] <==> x in audit || x == a;
  }

  predicate CountsFor(e: Event, b: Bucket) { e.Live() && e.eventType.CheckIn? && e.DayBucket() == b }

  lemma CheckInsAfterWrite(events: map<Id, Event>, after: map<Id, Event>, id: Id, b: Bucket)
    requires id in after && after == events[id := after[id]]
    ensures CountsFor(after[id], b) ==> HasCheckInOn(after, b)
    ensures !CountsFor(after[id], b) && !(id in events && CountsFor(events[id], b))
      ==> (HasCheckInOn(after, b) <==> HasCheckInOn(events, b))
    ensures HasCheckInOn(after, b) ==> HasCheckInOn(events, b) || CountsFor(after[id], b)
  {
    hide LocalIsoDate;
    if HasCheckInOn(events, b) {
      var x :| x in events && CountsFor(events[x], b);
      assert x in after && (x == id || CountsFor(after[x], b));
    }
    if HasCheckInOn(after, b) {
      var x :| x in after && CountsFor(after[x], b);
      assert x == id || (x in events && CountsFor(events[x], b));
    }
  }

  /** A check-in settles its own bucket, which then holds a live check-in. */
  lemma CheckInKeepsView(t: Tables, op: Op)
    requires InView(t) && op.RecordCheckIn? && FaithfulOp(op) && Call(t, op).Ok?
    ensures InView(Call(t, op).value)
  {
    hide LocalIsoDate, InDay, LocalYear, InView, MirrorEntry, HasLiveCheckIn, HasCheckInOn;
    var after := Call(t, op).value;
    var e := after.events[op.eventId];
    var b := e.DayBucket();
    WindowIsBucket(after.events, e.childId, e.recordedAt);
    CheckInsAfterWrite(t.events, after.events, op.eventId, b);
    WriteKeepsView(t, after, op.eventId, {b}, after.audit[|t.audit|]);
  }

  lemma CheckOutKeepsView(t: Tables, op: Op)
    requires InView(t) && op.RecordCheckOut? && FaithfulOp(op) && Call(t, op).Ok?
    ensures InView(Call(t, op).value)
  {
    hide LocalIsoDate, InDay, LocalYear, InView, MirrorEntry, HasLiveCheckIn, HasCheckInOn;
    var after := Call(t, op).value;
    WriteKeepsView(t, after, op.eventId, {}, after.audit[|t.audit|]);
  }

  lemma PatchKeepsView(t: Tables, op: Op)
    requires InView(t) && op.PatchEvent? && FaithfulOp(op) && Call(t, op).Ok?
    ensures InView(Call(t, op).value)
  {
    hide LocalIsoDate, InDay, LocalYear, Settle, SettleAll, Realigned, HasLiveCheckIn, HasCheckInOn;
    var after := Call(t, op).value;
    var was, e := t.events[op.eventId], after.events[op.eventId];
    var touched := {was.DayBucket(), e.DayBucket()};
    WindowIsBucket(after.events, was.childId, was.recordedAt);
    WindowIsBucket(after.events, e.childId, e.recordedAt);
    SettledStatuses(t.statuses, touched, after.events, op.env.staff[op.caller], op.env.now);
    hide InView;
    WriteKeepsView(t, after, op.eventId, touched, after.audit[|t.audit|]);
  }

  lemma DeleteKeepsView(t: Tables, op: Op)
    requires InView(t) && op.DeleteEvent? && Call(t, op).Ok?
    ensures InView(Call(t, op).value)
  {
    hide LocalIsoDate, InDay, LocalYear, Settle, SettleAll, WithoutMirror, HasLiveCheckIn, HasCheckInOn;
    var after := Call(t, op).value;
    var was := t.events[op.eventId];
    WindowIsBucket(after.events, was.childId, was.recordedAt);
    SettledStatuses(t.statuses, {was.DayBucket()}, after.events, op.env.staff[op.caller], op.env.now);
    hide InView;
    WriteKeepsView(t, after, op.eventId, {was.DayBucket()}, after.audit[|t.audit|]);
  }

  lemma SettledStatuses(statuses: map<Bucket, DailyStatus>, touched: set<Bucket>, events: map<Id, Event>,
                        staff: Id, now: int)
    ensures var after := SettleAll(statuses, touched, events, staff, now);
      && (forall b :: b in touched ==>
            StatusIn(after, b) == SettledStatus(StatusIn(statuses, b), HasLiveCheckIn(events, b)))
      && (forall b :: b !in touched ==> StatusIn(after, b) == StatusIn(statuses, b))
  {
    hide SettleAll, HasLiveCheckIn;
  }

  lemma StepKeepsView(t: Tables, op: Op)
    requires InView(t) && !op.SetDailyStatus? && FaithfulOp(op)
    ensures InView(Step(t, op))
  {
    hide InView, FaithfulOp;
    if Call(t, op).Ok? {
      match op
      case RecordCheckIn(_, _, _, _, _, _, _) => CheckInKeepsView(t, op);
      case RecordCheckOut(_, _, _, _, _, _, _) => CheckOutKeepsView(t, op);
      case PatchEvent(_, _, _, _, _, _) => PatchKeepsView(t, op);
      case DeleteEvent(_, _, _) => DeleteKeepsView(t, op);
      case _ => TimelineKeepsView(t, op);
    }
  }

  lemma TimelineKeepsView(t: Tables, op: Op)
    requires InView(t) && (op.CreateEntry? || op.UpdateEntry? || op.DeleteEntry?)
    ensures InView(Step(t, op))
  {
    hide HasCheckInOn, EverCheckedIn, EntryRefusal, MetadataAccepted, MentorMayWrite, LocalYear;
    var after := Step(t, op);
    assert after.events == t.events && after.statuses == t.statuses && after.audit == t.audit;
    assert forall b :: StatusOf(after, b) == StatusOf(t, b) && Derived(after, b) == Derived(t, b);
  }

  lemma {:induction false} ViewIsKept(ops: seq<Op>)
    requires forall op :: op in ops ==> !op.SetDailyStatus? && FaithfulOp(op)
    ensures InView(Run(ops))
  {
    hide Step, FaithfulOp;
    if ops != [] {
      ViewIsKept(ops[..|ops| - 1]);
      StepKeepsView(Run(ops[..|ops| - 1]), ops[|ops| - 1]);
    }
  }

  // ── What the log remembers ──────────────────────────────────────────────

  lemma {:induction false} LastAfterIsLogged(log: seq<AuditEntry>, id: Id) returns (a: AuditEntry)
    requires LastAfter(log, id).Some?
    ensures a in log && About(a, id) && a.after == LastAfter(log, id)
  {
    a := log[|log| - 1];
    if !About(a, id) { a := LastAfterIsLogged(log[..|log| - 1], id); }
  }

  /** A call logs a check-in in a bucket only by leaving one there. */
  lemma LoggedThenThere(t: Tables, op: Op, b: Bucket)
    requires !EverCheckedIn(t.audit, b) && EverCheckedIn(Step(t, op).audit, b)
    ensures HasCheckInOn(Step(t, op).events, b)
  {
    hide LocalIsoDate, Settle, SettleAll, Realigned, WithoutMirror, HasMirror, MirrorEntry, EntryRefusal,
      EverCheckedIn, HasCheckInOn;
    var after := Step(t, op);
    if |after.audit| > |t.audit| {
      var a := after.audit[|t.audit|];
      LoggedCheckIns(t.audit, a, b);
      assert after.audit == t.audit + [a];
      OneLiveCheckIn(after.events, a, b);
    }
  }

  lemma OneLiveCheckIn(events: map<Id, Event>, a: AuditEntry, b: Bucket)
    requires ShowsCheckIn(a, b) && a.eventId in events && events[a.eventId].Live() && a.after == Some(events[a.eventId])
    ensures HasCheckInOn(events, b)
  {
    hide LocalIsoDate;
  }

  lemma LogGrows(t: Tables, op: Op, b: Bucket)
    ensures EverCheckedIn(t.audit, b) ==> EverCheckedIn(Step(t, op).audit, b)
  {
    hide LocalIsoDate, Settle, SettleAll, Realigned, WithoutMirror, HasMirror, MirrorEntry, EntryRefusal, ShowsCheckIn;
  }

  lemma ThereThenLogged(ops: seq<Op>, b: Bucket)
    requires HasCheckInOn(Run(ops).events, b)
    ensures EverCheckedIn(Run(ops).audit, b)
  {
    hide Run, LastAfter, ChainedLog, Mentioned, HasCheckInOn, EverCheckedIn;
    AuditTrailIsExact(ops);
    LiveCheckInIsLogged(Run(ops), b);
  }

  lemma LiveCheckInIsLogged(t: Tables, b: Bucket)
    requires HasCheckInOn(t.events, b) && forall id :: LastAfter(t.audit, id) == LiveEvent(t, id)
    ensures EverCheckedIn(t.audit, b)
  {
    hide LastAfter, LocalIsoDate;
    var id :| id in t.events && t.events[id].Live() && t.events[id].eventType.CheckIn? && t.events[id].DayBucket() == b;
    var a := LastAfterIsLogged(t.audit, id);
    assert ShowsCheckIn(a, b);
  }

  ghost predicate HadCheckInOn(ops: seq<Op>, b: Bucket) {
    exists n: nat :: n <= |ops| && HasCheckInOn(Run(ops[..n]).events, b)
  }

  /** In every run the log shows a check-in in a bucket exactly when, at some
      moment of the run, a live one was there. */
  lemma {:induction false} EverCheckedInMeans(ops: seq<Op>, b: Bucket)
    ensures EverCheckedIn(Run(ops).audit, b) <==> HadCheckInOn(ops, b)
  {
    hide Step, HasCheckInOn, EverCheckedIn;
    if ops == [] {
      NothingYet(b);
      assert forall n: nat :: n <= |ops| ==> ops[..n] == [];
    } else {
      var front, op := ops[..|ops| - 1], ops[|ops| - 1];
      EverCheckedInMeans(front, b);
      LogGrows(Run(front), op, b);
      if HasCheckInOn(Run(ops).events, b) { ThereThenLogged(ops, b); }
      if EverCheckedIn(Run(ops).audit, b) && !EverCheckedIn(Run(front).audit, b) { LoggedThenThere(Run(front), op, b); }
      HadEarlier(front, op, b);
      assert ops == front + [op];
    }
  }

  lemma HadEarlier(front: seq<Op>, op: Op, b: Bucket)
    ensures HadCheckInOn(front + [op], b) <==> HadCheckInOn(front, b) || HasCheckInOn(Run(front + [op]).events, b)
  {
    hide HasCheckInOn, Run;
    var ops := front + [op];
    assert forall n: nat :: n <= |front| ==> ops[..n] == front[..n];
    assert ops[..|ops|] == ops;
    if HadCheckInOn(front, b) {
      var n: nat :| n <= |front| && HasCheckInOn(Run(front[..n]).events, b);
      assert HasCheckInOn(Run(ops[..n]).events, b);
    }
    if HadCheckInOn(ops, b) {
      var n: nat :| n <= |ops| && HasCheckInOn(Run(ops[..n]).events, b);
      assert n <= |front| ==> HasCheckInOn(Run(front[..n]).events, b);
    }
  }

  lemma NothingYet(b: Bucket)
    ensures !HasCheckInOn(EMPTY.events, b) && !EverCheckedIn(EMPTY.audit, b)
  {
  }

  /** In every run without explicit statuses, the status kept by deltas is the
      derived one: present exactly on buckets with a live check-in, absent on
      those that had one at some moment of the run and no longer do, missing
      everywhere else. */
  lemma StatusIsDerived(ops: seq<Op>, b: Bucket)
    requires forall op :: op in ops ==> !op.SetDailyStatus? && FaithfulOp(op)
    ensures var t := Run(ops);
      && (StatusOf(t, b) == Some(Present) <==> HasCheckInOn(t.events, b))
      && (StatusOf(t, b) == Some(Absent) <==> HadCheckInOn(ops, b) && !HasCheckInOn(t.events, b))
      && (StatusOf(t, b) == None <==> !HadCheckInOn(ops, b))
  {
    hide Run, FaithfulOp, HasCheckInOn, EverCheckedIn, HadCheckInOn;
    ViewIsKept(ops);
    EverCheckedInMeans(ops, b);
  }

  // ── Before year 100 ─────────────────────────────────────────────────────

  function EnvAt(now: int): Env { Env(now, map["user" := "staff"], {"child"}, {}, map[], {}) }

  const NO_CHANGE: EventPatch := EventPatch(Keep, Keep, Keep, Keep, Keep)

  function FirstCheckIn(at: int): Op { RecordCheckIn(EnvAt(at), "child", "user", Some(at), None, "event", "entry") }

  function EmptyPatch(at: int): Op {
    PatchEvent(EnvAt(at), "event", "user", NO_CHANGE, PatchOpts(true, false), "other")
  }

  /** The recompute depends on the year: a check-in followed by a patch that
      changes nothing reads present exactly when it happened in year 100 or
      later, and absent otherwise, though it is still live. */
  lemma PatchKeepsPresentExactlyFromYear100(at: int)
    ensures var t := Run([FirstCheckIn(at), EmptyPatch(at)]); var b := Bucket("child", LocalIsoDate(at));
      && HasCheckInOn(t.events, b)
      && StatusOf(t, b) == Some(if LocalYear(at) >= 100 then Present else Absent)
  {
    hide LocalIsoDate, InDay, LocalYear, Realigned, MirrorEntry;
    var ops := [FirstCheckIn(at), EmptyPatch(at)];
    assert ops[..1] == [FirstCheckIn(at)] && ops[..1][..0] == [];
    var first := Step(EMPTY, FirstCheckIn(at));
    assert Run(ops[..1]) == first;
    OnlyCheckIn(at);
    var t := Step(first, EmptyPatch(at));
    assert Run(ops) == t;
    assert "event" in t.events && t.events["event"].DayBucket() == Bucket("child", LocalIsoDate(at));
    SettledStatuses(first.statuses, {Bucket("child", LocalIsoDate(at))}, t.events, "staff", at);
    OwnDay(at);
  }

  lemma OnlyCheckIn(at: int)
    ensures var first := Step(EMPTY, FirstCheckIn(at)); var b := Bucket("child", LocalIsoDate(at));
      && StatusOf(first, b) == Some(Present)
      && first.events == map["event" := Event("child", CheckIn, Manual, Some("staff"), None, None, None, at, at, None)]
  {
    hide LocalIsoDate;
  }

  /** An instant lies in the window of its own date exactly from year 100 on. */
  lemma OwnDay(at: int)
    ensures InDay(LocalIsoDate(at), at) <==> LocalYear(at) >= 100
  {
    hide LocalIsoDate, InDay, LocalYear;
    if LocalYear(at) >= 100 { DayWindow(at, at); } else { EarlyYearMisread(at); }
  }

  // ── Explicit statuses ───────────────────────────────────────────────────

  /** A status may change without the operator only by a live check-in lifting
      missing, absent or late to present, or by the last one leaving. */
  predicate Automatic(was: Option<Intraday>, now: Option<Intraday>, live: bool) {
    || was == now
    || (live && now == Some(Present) && was in {None, Some(Absent), Some(Late)})
    || (!live && now == Some(Absent) && was == Some(Present))
  }

  lemma ChangesAreAutomatic(t: Tables, op: Op, b: Bucket)
    requires FaithfulRows(t.events) && FaithfulOp(op) && !op.SetDailyStatus?
    ensures Automatic(StatusOf(t, b), StatusOf(Step(t, op), b), HasCheckInOn(Step(t, op).events, b))
  {
    if Call(t, op).Ok? {
      match op
      case RecordCheckIn(_, _, _, _, _, _, _) => CheckInChanges(t, op, b);
      case PatchEvent(_, _, _, _, _, _) => PatchChanges(t, op, b);
      case DeleteEvent(_, _, _) => DeleteChanges(t, op, b);
      case _ =>
    }
  }

  lemma StepKeepsFaithful(t: Tables, op: Op)
    requires FaithfulRows(t.events) && FaithfulOp(op)
    ensures FaithfulRows(Step(t, op).events)
  {
    hide LocalIsoDate, LocalYear, Settle, SettleAll, Realigned, WithoutMirror, HasMirror, HasLiveCheckIn, EntryRefusal;
  }

  lemma {:induction false} RunsAreFaithful(ops: seq<Op>)
    requires forall op :: op in ops ==> FaithfulOp(op)
    ensures FaithfulRows(Run(ops).events)
  {
    hide Step, FaithfulOp, FaithfulRows;
    if ops == [] {
      NoRows();
    } else {
      RunsAreFaithful(ops[..|ops| - 1]);
      StepKeepsFaithful(Run(ops[..|ops| - 1]), ops[|ops| - 1]);
    }
  }

  lemma NoRows()
    ensures FaithfulRows(EMPTY.events)
  {
  }

  /** In every run, explicit statuses included, each call but `setDailyStatus`
      changes each status automatically or not at all. */
  lemma RunsChangeAutomatically(ops: seq<Op>, i: nat, b: Bucket)
    requires i < |ops| && !ops[i].SetDailyStatus? && forall op :: op in ops ==> FaithfulOp(op)
    ensures var before, after := Run(ops[..i]), Run(ops[..i + 1]);
      Automatic(StatusOf(before, b), StatusOf(after, b), HasCheckInOn(after.events, b))
  {
    hide Step, FaithfulOp, FaithfulRows, Automatic, StatusOf, HasCheckInOn;
    RunsAreFaithful(ops[..i]);
    assert ops[..i + 1][..i] == ops[..i];
    ChangesAreAutomatic(Run(ops[..i]), ops[i], b);
  }

  lemma CheckInChanges(t: Tables, op: Op, b: Bucket)
    requires op.RecordCheckIn? && Call(t, op).Ok?
    ensures Automatic(StatusOf(t, b), StatusOf(Step(t, op), b), HasCheckInOn(Step(t, op).events, b))
  {
    hide LocalIsoDate, HasCheckInOn, MirrorEntry;
    CheckInsAfterWrite(t.events, Step(t, op).events, op.eventId, b);
  }

  lemma PatchChanges(t: Tables, op: Op, b: Bucket)
    requires FaithfulRows(t.events) && FaithfulOp(op) && op.PatchEvent? && Call(t, op).Ok?
    ensures Automatic(StatusOf(t, b), StatusOf(Step(t, op), b), HasCheckInOn(Step(t, op).events, b))
  {
    hide LocalIsoDate, InDay, LocalYear, Settle, SettleAll, Realigned, HasLiveCheckIn, HasCheckInOn;
    var after := Step(t, op);
    var was, e := t.events[op.eventId], after.events[op.eventId];
    WindowIsBucket(after.events, was.childId, was.recordedAt);
    WindowIsBucket(after.events, e.childId, e.recordedAt);
    SettledStatuses(t.statuses, {was.DayBucket(), e.DayBucket()}, after.events, op.env.staff[op.caller], op.env.now);
  }

  lemma DeleteChanges(t: Tables, op: Op, b: Bucket)
    requires FaithfulRows(t.events) && op.DeleteEvent? && Call(t, op).Ok?
    ensures Automatic(StatusOf(t, b), StatusOf(Step(t, op), b), HasCheckInOn(Step(t, op).events, b))
  {
    hide LocalIsoDate, InDay, LocalYear, Settle, SettleAll, WithoutMirror, HasLiveCheckIn, HasCheckInOn;
    var after := Step(t, op);
    var was := t.events[op.eventId];
    WindowIsBucket(after.events, was.childId, was.recordedAt);
    SettledStatuses(t.statuses, {was.DayBucket()}, after.events, op.env.staff[op.caller], op.env.now);
  }

  /** The status the log last records an operator setting on a bucket. */
  function LastSet(audit: seq<AuditEntry>, b: Bucket): Option<Intraday> {
    if audit == [] then None
    else
      var a := audit[|audit| - 1];
      if a.StatusAudit? && a.bucket == b then Some(a.next.status) else LastSet(audit[..|audit| - 1], b)
  }

  predicate Explicit(s: Intraday) { s.Sick? || s.OnVacation? || s.EarlyPickup? }

  ghost predicate OperatorsOwn(t: Tables) {
    forall b ::
      && (forall s :: Explicit(s) ==> (StatusOf(t, b) == Some(s) <==> LastSet(t.audit, b) == Some(s)))
      && (StatusOf(t, b) == Some(Late) ==> LastSet(t.audit, b) == Some(Late))
  }

  lemma LastSetSnoc(audit: seq<AuditEntry>, a: AuditEntry, b: Bucket)
    ensures LastSet(audit + [a], b) ==
      if a.StatusAudit? && a.bucket == b then Some(a.next.status) else LastSet(audit, b)
  {
    assert (audit + [a])[..|audit|] == audit;
  }

  /** Whatever a call does to a status, an automatic change or a logged one. */
  lemma StepKeepsOperators(t: Tables, op: Op)
    requires OperatorsOwn(t)
    ensures OperatorsOwn(Step(t, op))
  {
    hide LastSet;
    var after := Step(t, op);
    forall b
      ensures forall s :: Explicit(s) ==> (StatusOf(after, b) == Some(s) <==> LastSet(after.audit, b) == Some(s))
      ensures StatusOf(after, b) == Some(Late) ==> LastSet(after.audit, b) == Some(Late)
    {
      if |after.audit| > |t.audit| {
        LastSetSnoc(t.audit, after.audit[|t.audit|], b);
      }
      StatusOrLog(t, op, b);
    }
  }

  /** A call leaves a status alone, changes it automatically, or sets and logs it. */
  lemma StatusOrLog(t: Tables, op: Op, b: Bucket)
    ensures var after := Step(t, op);
      || (after.audit == t.audit && StatusOf(after, b) == StatusOf(t, b))
      || (|after.audit| == |t.audit| + 1 && after.audit == t.audit + [after.audit[|t.audit|]]
          && var a := after.audit[|t.audit|];
             if a.StatusAudit? && a.bucket == b then StatusOf(after, b) == Some(a.next.status)
             else exists live :: Automatic(StatusOf(t, b), StatusOf(after, b), live))
  {
    hide LocalIsoDate, MirrorEntry, HasLiveCheckIn, Settle, SettleAll, Realigned, WithoutMirror, EntryRefusal;
    var after := Step(t, op);
    if Call(t, op).Ok? {
      match op
      case RecordCheckIn(_, _, _, _, _, _, _) =>
        SettleLive(Lookup(t.statuses, b), op.env.staff[op.caller], op.env.now);
        assert Automatic(StatusOf(t, b), StatusOf(after, b), true);
      case RecordCheckOut(_, _, _, _, _, _, _) => assert Automatic(StatusOf(t, b), StatusOf(after, b), true);
      case PatchEvent(env, id, caller, _, _, _) =>
        var touched := {t.events[id].DayBucket(), after.events[id].DayBucket()};
        SettledStatuses(t.statuses, touched, after.events, env.staff[caller], env.now);
        assert Automatic(StatusOf(t, b), StatusOf(after, b), HasLiveCheckIn(after.events, b));
      case DeleteEvent(env, id, caller) =>
        SettledStatuses(t.statuses, {t.events[id].DayBucket()}, after.events, env.staff[caller], env.now);
        assert Automatic(StatusOf(t, b), StatusOf(after, b), HasLiveCheckIn(after.events, b));
      case SetDailyStatus(_, _, bucket, _, _) =>
        assert b != bucket ==> Automatic(StatusOf(t, b), StatusOf(after, b), true);
      case _ =>
    }
  }

  lemma SettleLive(row: Option<DailyStatus>, staff: Id, now: int)
    ensures Settle(row, true, staff, now).value.status
         == if row.Some? && !row.value.status.Absent? && !row.value.status.Late? then row.value.status else Present
  {
  }

  /** In every run a bucket reads sick, on vacation or picked up early exactly
      when that is the last status an operator set on it, and late only then. */
  lemma {:induction false} ExplicitStatusesStay(ops: seq<Op>)
    ensures OperatorsOwn(Run(ops))
  {
    hide Step;
    if ops != [] {
      ExplicitStatusesStay(ops[..|ops| - 1]);
      StepKeepsOperators(Run(ops[..|ops| - 1]), ops[|ops| - 1]);
    }
  }

  // ── Recomputing buckets ─────────────────────────────────────────────────

  /** The recompute loop: one bucket after another. */
  function SettleInTurn(statuses: map<Bucket, DailyStatus>, buckets: seq<Bucket>, events: map<Id, Event>,
                        staff: Id, now: int): map<Bucket, DailyStatus> {
    if buckets == [] then statuses
    else
      var n := |buckets| - 1;
      SettleAll(SettleInTurn(statuses, buckets[..n], events, staff, now), {buckets[n]}, events, staff, now)
  }

  function Elements(buckets: seq<Bucket>): set<Bucket> { set b | b in buckets }

  lemma SameLookups<K, V>(m: map<K, V>, n: map<K, V>)
    requires forall k :: Lookup(m, k) == Lookup(n, k)
    ensures m == n
  {
    assert forall k :: k in m <==> Lookup(m, k).Some?;
    assert forall k :: k in n <==> Lookup(n, k).Some?;
    assert forall k :: k in m ==> Lookup(m, k) == Lookup(n, k);
  }

  lemma SettledStays(row: Option<DailyStatus>, live: bool, staff: Id, now: int, staff': Id, now': int)
    ensures Settle(Settle(row, live, staff, now), live, staff', now') == Settle(row, live, staff, now)
  {
  }

  /** Recomputing buckets in turn settles each of them once: neither order nor
      repetition matters. */
  lemma {:induction false} OrderIsIrrelevant(statuses: map<Bucket, DailyStatus>, buckets: seq<Bucket>,
                                             events: map<Id, Event>, staff: Id, now: int)
    ensures SettleInTurn(statuses, buckets, events, staff, now)
         == SettleAll(statuses, Elements(buckets), events, staff, now)
  {
    hide Settle, HasLiveCheckIn, SettleAll;
    if buckets == [] {
      SameLookups(statuses, SettleAll(statuses, Elements(buckets), events, staff, now));
    } else {
      var n := |buckets| - 1;
      OrderIsIrrelevant(statuses, buckets[..n], events, staff, now);
      var b := buckets[n];
      assert forall x :: x in buckets <==> x in buckets[..n] || x == b;
      SettledStays(Lookup(statuses, b), HasLiveCheckIn(events, b), staff, now, staff, now);
      SameLookups(SettleInTurn(statuses, buckets, events, staff, now),
                  SettleAll(statuses, Elements(buckets), events, staff, now));
    }
  }

  /** A second recompute, by anyone at any time, changes nothing. */
  lemma RecomputeIsIdempotent(statuses: map<Bucket, DailyStatus>, touched: set<Bucket>, events: map<Id, Event>,
                              staff: Id, now: int, staff': Id, now': int)
    ensures var once := SettleAll(statuses, touched, events, staff, now);
      SettleAll(once, touched, events, staff', now') == once
  {
    hide Settle, HasLiveCheckIn, SettleAll;
    var once := SettleAll(statuses, touched, events, staff, now);
    forall b | b in touched
      ensures Lookup(SettleAll(once, touched, events, staff', now'), b) == Lookup(once, b)
    {
      SettledStays(Lookup(statuses, b), HasLiveCheckIn(events, b), staff, now, staff', now');
    }
    SameLookups(SettleAll(once, touched, events, staff', now'), once);
  }
}
